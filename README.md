# ferrum-router, modelled in Dafny

This project models the route engine of ferrum-router, a request router for the Ferrum web
framework. The engine has three parts.

- **Template compiler** (`Recognizer::parse_glob`): turns a route template such as
  `/users/{id:number}` into an anchored regex pattern and records the named parameters.
  - The scanner is modelled as imperative methods in `recognizer.dfy`.
  - They are proved equal to a recursive reference scan, `GlobSyntax.ScanFrom` and
    `GlobSyntax.Compile`, in `glob_syntax.dfy`.
  - The reference scan carries the compiler's properties: verbatim literals,
    whitespace-insensitive placeholders, the identifier rule, the anchor rule, and each
    chunk spanning its placeholder.
- **Route table** (`Router`): one append-only route list per request method, a list of
  routes that take any method, and a registry of route ids.
  - It is a class with in-place updates (`router.dfy`).
  - Dispatch, the `Allow` set of an OPTIONS answer and the HEAD-as-GET fallback are stated
    on plain values, and lemmas relate a table before and after a registration.
- **Reverse URI generation** (`uri_for`): splices supplied parameters into a registered
  route's template, then appends the rest as a query string in ascending key order
  (`uri_for.dfy`).

The regex library is not modelled. An `Engine` value stands for it and supplies three
things: whether a pattern compiles, the named groups a pattern captures in a subject, and a
pattern's group names. Each Rust panic becomes an error value:
- `Recognizer::new(..).unwrap()` on a bad pattern;
- a duplicate route id;
- a shared table;
- an out-of-range slice in `replace_params`;
- a missing route table or unknown id in `uri_for`.

In the router, an error leaves the table as it was. The constants of
`src/recognizer/types.rs:13-17` are `PatternTypes.STRING_PATTERN` (`[^/.]+`) and
`PatternTypes.NUMBER_PATTERN` (`[0-9]+`), under the names `string` and `number`.

Where the code and its tests or documentation disagree, the model follows the code:

- **Registry misses.** If a placeholder's type is not in the registry, the fragment falls
  back to `[^/.]+` (src/recognizer/mod.rs:87-91). This holds even when an explicit type was
  written. The tests at src/recognizer/tests.rs:61-73 expect the type text (`.*`) to be used
  as an inline regex instead. `GlobSyntax.Fragment` follows the code, and
  `GlobSyntax.TailTypeExample` states what the code makes of that test's template.
- **The end anchor.** The choice between `$` and `/?$` depends on the last character of the
  pattern assembled so far (src/recognizer/mod.rs:106), not of the template. The two choices
  differ in only two cases. Here an empty placeholder is `{}` or braces holding only
  whitespace and at most one `:`; it emits nothing.
  - The template ends in empty placeholders, and a `/` comes before them with only other
    empty placeholders in between.
  - The template ends in an unterminated `{`. Either a `/` comes before that `{` with only
    empty placeholders in between, or the unterminated part itself ends in `/`.
- **Chunks.** The recognizer source keeps only the parameter names. Its tests
  (src/recognizer/tests.rs:59,73,97) and `generate_for_glob` (src/uri_for/mod.rs:77) also
  read a `param_chunks` list of `(name, start, end)` spans. The model records these chunks
  alongside the names.
- **Default registry.** `DefaultStore::with_default_types` is not part of this model's
  sources. The default registry is taken to be `{string, number}` with the two constants
  above.

## Model

| member | source | states |
|---|---|---|
| GlobSyntax.PieceOf | src/recognizer/mod.rs:67-94 | A closed placeholder records a parameter exactly when its name is an identifier, and that parameter is the name. It emits no text exactly when both name and type are empty. |
| GlobSyntax.Compile | src/recognizer/mod.rs:49-107 | The compiled pattern begins with `^` and ends with `$`. There is one recorded name per chunk. |
| GlobSyntax.InnerStep | src/recognizer/mod.rs:62-99 | Byte by byte inside braces: whitespace changes nothing; the first `:` switches from name to type; every later byte, colons included, extends the type; before that, bytes extend the name. |
| GlobSyntax.StripKeepsParts | src/recognizer/mod.rs:64 | Removing the whitespace from a placeholder's bytes leaves its name, its type and the presence of `:` unchanged. |
| GlobSyntax.PlaceholderIgnoresWhitespace | src/recognizer/tests.rs:75-97 | A placeholder compiles exactly as its whitespace-free form does (`{ id:   number  }` as `{id:number}`). |
| GlobSyntax.ScanChunksPlaced | src/recognizer/mod.rs:54-104 | The chunks a scan records are non-empty and lie in increasing template order without overlap, inside the scanned part of the template. |
| GlobSyntax.ScanChunksSpan | src/recognizer/mod.rs:57-101 | Each recorded chunk runs from a `{` to the first `}` after it, and its name is the placeholder's whitespace-free name, which is an identifier. |
| GlobSyntax.CompiledChunks | src/recognizer/mod.rs:79-82 | A compiled template's chunks are in template order and each spans its own placeholder. Its names are the chunk names in the same order. |
| GlobSyntax.ScanLiteral | src/recognizer/mod.rs:102 | Bytes outside braces are copied verbatim and in order, and record nothing. |
| GlobSyntax.LiteralTemplate | src/recognizer/tests.rs:22-31 | A brace-free template compiles to `^`, itself and the anchor, with no names and no chunks. |
| GlobSyntax.EmptyTemplate | src/recognizer/tests.rs:4-12 | The empty template compiles to `^/?$` with no parameters. |
| GlobSyntax.Unterminated | src/recognizer/mod.rs:62-100 | A `{` with no later `}` ends the scan; nothing more is emitted or recorded. |
| GlobSyntax.EmptyPlaceholder | src/recognizer/mod.rs:66-67 | `{}` emits nothing and records nothing; the scan goes on after it. |
| GlobSyntax.PlainPlaceholder | src/recognizer/mod.rs:76-91 | `{name}` with an identifier name the registry does not know compiles to `(?P<name>[^/.]+)` and records `name`. |
| GlobSyntax.PostsNameExample | src/recognizer/tests.rs:48-59 | `/posts/{name}` compiles to `^/posts/(?P<name>[^/.]+)/?$`, with names `["name"]` and the chunk 7..13. |
| GlobSyntax.TailTypeExample | src/recognizer/tests.rs:61-73 | `/posts/{tail:.*}` compiles to `^/posts/(?P<tail>[^/.]+)/?$`, with names `["tail"]` and the chunk 7..16. The type `.*` is not a registry key, so the string fragment replaces it. |
| Recognizer.ReadPlaceholder | src/recognizer/mod.rs:58-100 | The inner loop stops at the first `}` after the `{`, or at the end of the template. What it collected is the whitespace-free name before the first colon and the type after it. |
| Recognizer.EmitPlaceholder | src/recognizer/mod.rs:67-94 | The text emitted and the name recorded for a closed placeholder are those of the reference `PieceOf`. |
| Recognizer.CompilePlaceholder | src/recognizer/mod.rs:57-101 | One placeholder: the scan resumes after its `}` (or at the end), and the emitted text and chunk are the reference scan's step at that `{`. |
| Recognizer.ScanTemplate | src/recognizer/mod.rs:49-104 | The main loop yields `^` followed by the reference scan's body, the reference chunks, and the chunk names in order. |
| Recognizer.ParseGlob | src/recognizer/mod.rs:44-108 | `parse_glob` returns the reference compilation when its pattern compiles, and the pattern error otherwise. |
| Recognizer.NewRecognizer | src/recognizer/mod.rs:26-42 | A route compiled against the given registry, or against the default registry when none is given, carries the handler. An invalid pattern is an error. |
| Recognizer.Bind | src/recognizer/mod.rs:114-119 | A match binds exactly the recorded names whose group took part, each to its group's text. |
| Recognizer.Match | src/recognizer/mod.rs:112-124 | A route matches exactly when its pattern captures the path, and the match carries the route's handler. |
| Recognizer.Recognize | src/recognizer/mod.rs:112-124 | The insertion loop builds `Match`. On a match the parameter keys are the recorded names that the captures hold. |
| Recognizer.FirstMatchSpec | src/recognizer/mod.rs:127-136 | A list yields None exactly when no route matches. Otherwise it yields the match of a route that no earlier route precedes in matching. |
| Recognizer.FirstMatchAppend | src/recognizer/mod.rs:127-136 | Routes appended to a list are consulted only when no earlier route matches. |
| Recognizer.FirstMatchIn | src/recognizer/mod.rs:127-136 | The loop with early return computes the first match in list order. |
| RouteParams.SortedKeys | src/recognizer/route_match.rs:4 | The keys of a parameter map in iteration order: each key exactly once, strictly ascending. |
| Router.DispatchIsFirstMatch | src/router/mod.rs:204-209 | Dispatch is the first match over the method's own routes followed by the wildcard routes. |
| Router.RouteDispatch | src/router/mod.rs:92-95 | Appending a route for method `m` leaves dispatch of every other method unchanged. For `m`, the new route gets only the paths that no earlier route of `m` takes, and it goes ahead of the wildcard routes. |
| Router.AnyDispatch | src/router/mod.rs:182-200 | A wildcard route appended to the table takes only the requests that nothing registered before it takes. |
| Router.ListedMembers | src/router/mod.rs:224-230 | The option walk keeps exactly the walked methods whose own list matches the path. |
| Router.ListedOrdered | src/router/mod.rs:212-230 | The option walk keeps the walk's order. |
| Router.AllowedSpec | src/router/mod.rs:211-234 | The Allow set holds an advertised method exactly when its own list matches, plus HEAD whenever GET matches. It holds each method at most once and never OPTIONS. |
| Router.RespondSpec | src/router/mod.rs:260-288 | The answer is NoRoute exactly when the method finds no route, the method is not OPTIONS, and for HEAD GET finds none either. A handler answer is the dispatch under the effective method. An Allow answer only comes for an unmatched OPTIONS. |
| Router.Router.constructor | src/router/mod.rs:39-47 | A new router has empty lists and registry and is not shared. |
| Router.Router.Share | src/router/mod.rs:49-50 | An explicit freeze: another handle to the table now exists, so `mut_inner` refuses every later change. The table itself is unchanged. |
| Router.Router.RegisterId | src/router/mod.rs:99-110 | Binding an id fails on a shared table. It fails for an id bound to a different template, and otherwise rebinds the id. The registry changes only on success; the route lists never change. |
| Router.Router.Route | src/router/mod.rs:76-97 | Errors come in the order bad pattern, shared table, conflicting id. On success the route goes at the end of its method's list (created if absent) and the id, if given, is bound. On failure nothing changes. The wildcard list and the other methods never change. |
| Router.Router.Any | src/router/mod.rs:184-202 | As `Route`, but the route goes at the end of the wildcard list and no per-method list changes. |
| Router.Router.Dispatch | src/router/mod.rs:204-209 | Computes `DispatchIn` on the current table. |
| Router.Router.HandleOptions | src/router/mod.rs:211-239 | The loop over the six advertised methods, plus the HEAD rule, builds `AllowedIn`. |
| Router.Router.HandleMethod | src/router/mod.rs:241-249 | On a match the request receives the match's parameters and the handler is returned. Otherwise the request is untouched. |
| Router.Router.Handle | src/router/mod.rs:260-288 | The answer is `RespondIn` for the request's method. The request ends with the effective method (a HEAD retried as GET stays GET), and with the parameters of the route that handled it. An Allow or NoRoute answer leaves the stored parameters as they were. |
| UriFor.InsertByStart | src/uri_for/mod.rs:105 | Insertion adds exactly one element, and the new head is the inserted element or the old head. |
| UriFor.SortByStart | src/uri_for/mod.rs:105 | The replacements sorted by start offset are a permutation of the input. |
| UriFor.SortSortedIsIdentity | src/uri_for/mod.rs:105 | Sorting replacements already in start order changes nothing. |
| UriFor.SpliceDefined | src/uri_for/mod.rs:110-118 | Splicing avoids the out-of-range panic exactly when each replacement starts no earlier than the previous one's end and no later than the source's end. |
| UriFor.SpliceOwnText | src/uri_for/mod.rs:110-118 | Splicing back the text each range covers reproduces the source, so the bytes outside the ranges are kept in order. |
| UriFor.FitsSorted | src/uri_for/mod.rs:105-115 | Replacements that fit the source are already in start order. |
| UriFor.ReplaceParams | src/uri_for/mod.rs:103-124 | The walk with a moving index builds the splice of the sorted replacements. It returns the source verbatim when there are none, and fails exactly when the sorted replacements do not fit. |
| UriFor.PickedFromChunks | src/uri_for/mod.rs:77-81 | Every recorded replacement covers a chunk whose name was supplied, and carries the supplied value. |
| UriFor.PickedCount | src/uri_for/mod.rs:77-81 | One replacement is recorded per distinct supplied chunk name. |
| UriFor.PickedFits | src/uri_for/mod.rs:77-82 | Chunks in template order give replacements that fit the template. |
| UriFor.GlobStepDefined | src/uri_for/mod.rs:74-83 | For a route compiled from the template, splicing never panics and needs no reordering. When no supplied name is a chunk name, the template and the parameters come back unchanged. |
| UriFor.GenerateForGlob | src/uri_for/mod.rs:74-83 | The removal loop consumes exactly the supplied chunk names, leaves every other parameter in place, and splices the recorded values. |
| UriFor.CollectGroups | src/uri_for/mod.rs:89-98 | Every supplied group name is consumed, whether or not its group took part. A replacement is recorded only for groups that took part. |
| UriFor.RegexPickedFromGroups | src/uri_for/mod.rs:89-98 | Every replacement the regex walk records covers the span of a named group that took part in the match and whose name was supplied. It carries the supplied value. |
| UriFor.GenerateForRegexCaptures | src/uri_for/mod.rs:86-101 | When the pattern captures the source, the group replacements are spliced. Otherwise the source and the parameters are returned as they are. |
| UriFor.QueryStep | src/uri_for/mod.rs:40-46 | One round of the query loop writes `key=value`, then `&` unless this is the last pair. |
| UriFor.WriteQuery | src/uri_for/mod.rs:36-47 | The enumerated loop writes every leftover pair in ascending key order, joined by `&` with no trailing `&`. |
| UriFor.Generate | src/uri_for/mod.rs:13-53 | The asterisk form is returned as `*`. Otherwise the result is scheme and `://` (if any), authority (if any), the generated path, then `?` and the query only when parameters are left. |
| UriFor.UriFor | src/uri_for/mod.rs:62-72 | Fails when the request carries no table or the id is not registered. Otherwise it generates from the registered template and route. |
| UriFor.GeneratedForRegistration | src/uri_for/mod.rs:62-83 | For a route registered through the table, generation always succeeds: supplied values replace their placeholders and the remaining parameters form the query. |
| UriFor.QueryRoundTrip | src/uri_for/mod.rs:36-47 | Reading the query string back gives the leftover parameters, provided no key holds `=` or `&` and no value holds `&`. |

## Left out

- Regex compilation and matching (`Regex::new`, `captures`, `capture_names`) are a foreign library. The `Engine` value stands for them, and no claim is made about which paths a pattern accepts.
- UTF-8 handling (`String::from_utf8`, `from_utf8_lossy`) is not modelled. Templates and paths are character sequences, one character per byte, so the `from_utf8` errors of `parse_glob` do not occur.
- Hyper `Uri` parsing is not modelled. The base URI is a record of scheme, authority and path, and the final `parse()` of the generated URI, with the panic in `uri_for` when it fails, is not modelled.
- `Request`, `Response`, the `typemap` extensions, `header::Allow` rendering and handler invocation are not modelled. Handlers are ids, the Allow header is a method sequence, and a request is a method, a path and the stored parameters.
- `Arc` sharing and thread safety are reduced to the `shared` flag, which only `Router.Router.Share` sets. Storing the table's `Arc` in the request's extensions (src/router/mod.rs:244) is not modelled, so serving a request never makes the table shared in the model, and `uri_for` takes the table as a parameter.
- `Router::get`, `post`, `put`, `delete`, `head`, `patch` and `options` (src/router/mod.rs:112-180) are not modelled separately. Each is `route` with a fixed method.
- Panics are modelled as error values, not as aborts.
- src/macros.rs (call-site sugar), the example programs, and the older single-file versions src/router.rs, src/uri_for.rs, src/recognizer.rs and src/glob.rs are not part of this model.
- `DefaultStore::with_default_types` is not part of this model. Its registry is assumed to hold `string` and `number`.
- UriFor.SortByStart: stability of `sort_by` (equal starts keep their order) is not stated as a property. Insertion before the first replacement that does not start earlier is stable, but no lemma says so.
