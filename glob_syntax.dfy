/**
 * The route template language and its reference compilation
 * (src/recognizer/mod.rs, Recognizer::parse_glob).
 *
 * A template is scanned left to right. Bytes outside braces are copied into
 * the pattern. A `{` opens a placeholder that runs to the next `}`; inside
 * it whitespace is dropped, the first `:` separates the name from the type,
 * and the placeholder is replaced by a capture group (or re-emitted
 * literally, or dropped). `ScanFrom` states this scan as a recursive
 * function over the position in the template; the imperative scanner in
 * module Recognizer is proved equal to it.
 */
module GlobSyntax {
  import opened Wrappers
  import opened Text
  import opened PatternTypes

  /** The bytes the placeholder scanner skips. */
  predicate IsSpace(c: char)
  {
    c == ' ' || c == '\t' || c == '\r' || c == '\n'
  }

  predicate IsIdentStart(c: char)
  {
    c == '_' || 'a' <= c <= 'z' || 'A' <= c <= 'Z'
  }

  predicate IsIdentChar(c: char)
  {
    IsIdentStart(c) || '0' <= c <= '9'
  }

  /** The whole of `s` matches `[_a-zA-Z][_0-9a-zA-Z]*`. */
  predicate IsIdentifier(s: string)
  {
    |s| > 0 && IsIdentStart(s[0]) && forall i :: 1 <= i < |s| ==> IsIdentChar(s[i])
  }

  /** `s` with every whitespace byte removed, order kept. */
  function Strip(s: string): (r: string)
    ensures |r| <= |s|
    ensures forall i :: 0 <= i < |r| ==> !IsSpace(r[i])
  {
    if s == [] then []
    else Strip(s[..|s| - 1]) + (if IsSpace(s[|s| - 1]) then [] else [s[|s| - 1]])
  }

  /** The name of a placeholder whose bytes between the braces are `inner`: what precedes the first colon. */
  function NamePart(inner: string): string
  {
    Strip(inner[..IndexOf(inner, ':', 0)])
  }

  /** The type of that placeholder: everything after the first colon, later colons included. */
  function TypePart(inner: string): string
  {
    var k := IndexOf(inner, ':', 0);
    if k < |inner| then Strip(inner[k + 1..]) else []
  }

  /** A named placeholder of the template: its name and the byte span `[start, end)` of the whole `{...}`. */
  datatype ParamChunk = ParamChunk(name: string, start: nat, end: nat)

  /** What one placeholder contributes: pattern text, and the parameter it records, if any. */
  datatype Piece = Piece(text: string, param: Option<string>)

  /** The regex fragment for a type key; a registry miss falls back to the string fragment. */
  function Fragment(types: Registry, key: string): string
  {
    if key in types then types[key] else STRING_PATTERN
  }

  /** What a closed placeholder with (whitespace-free) name `name` and type `ty` compiles to. */
  function PieceOf(name: string, ty: string, types: Registry): (p: Piece)
    ensures p.param.Some? <==> IsIdentifier(name)
    ensures p.param.Some? ==> p.param.value == name
    ensures p.text == [] <==> name == [] && ty == []
  {
    if name == [] && ty == [] then Piece([], None)
    else if name != [] && !IsIdentifier(name) then Piece("{" + name + "}", None)
    else
      var fragment := Fragment(types, if ty != [] then ty else name);
      if name != [] then Piece("(?P<" + name + ">" + fragment + ")", Some(name))
      else Piece("(" + fragment + ")", None)
  }

  /** The compilation of one closed placeholder whose bytes between the braces are `inner`. */
  function Placeholder(inner: string, types: Registry): Piece
  {
    PieceOf(NamePart(inner), TypePart(inner), types)
  }

  /** The result of scanning a template suffix: the pattern body and the named chunks, in template order. */
  datatype Scan = Scan(body: string, chunks: seq<ParamChunk>)

  /** The scan of template `t` from byte `i` to the end. */
  function ScanFrom(t: string, i: nat, types: Registry): Scan
    requires i <= |t|
    decreases |t| - i
  {
    if i == |t| then Scan([], [])
    else if t[i] != '{' then
      var rest := ScanFrom(t, i + 1, types);
      Scan([t[i]] + rest.body, rest.chunks)
    else
      var close := IndexOf(t, '}', i + 1);
      if close == |t| then Scan([], [])   // an unterminated placeholder ends the scan, emitting nothing
      else
        var piece := Placeholder(t[i + 1..close], types);
        var rest := ScanFrom(t, close + 1, types);
        var chunk := if piece.param.Some? then [ParamChunk(piece.param.value, i, close + 1)] else [];
        Scan(piece.text + rest.body, chunk + rest.chunks)
  }

  /** The end anchor: `$` after a pattern ending in `/`, otherwise an optional trailing slash. */
  function Anchor(pattern: string): string
  {
    if |pattern| > 0 && pattern[|pattern| - 1] == '/' then "$" else "/?$"
  }

  function Names(chunks: seq<ParamChunk>): (names: seq<string>)
    ensures |names| == |chunks|
    ensures forall i :: 0 <= i < |chunks| ==> names[i] == chunks[i].name
  {
    seq(|chunks|, i requires 0 <= i < |chunks| => chunks[i].name)
  }

  /** A compiled template: the anchored pattern, the parameter names and their chunks. */
  datatype Compiled = Compiled(pattern: string, names: seq<string>, chunks: seq<ParamChunk>)

  /** The reference compilation of a template against a type registry. */
  function Compile(t: string, types: Registry): (c: Compiled)
    ensures |c.pattern| >= 2 && c.pattern[0] == '^' && c.pattern[|c.pattern| - 1] == '$'
    ensures |c.names| == |c.chunks|
  {
    var scan := ScanFrom(t, 0, types);
    var assembled := "^" + scan.body;
    Compiled(assembled + Anchor(assembled), Names(scan.chunks), scan.chunks)
  }

  /** Chunks lie inside `[from, n)`, each non-empty, in increasing order and without overlap. */
  predicate WellPlaced(chunks: seq<ParamChunk>, from: nat, n: nat)
    decreases |chunks|
  {
    chunks == [] ||
    (from <= chunks[0].start < chunks[0].end <= n && WellPlaced(chunks[1..], chunks[0].end, n))
  }

  /** Chunk `c` spans a whole placeholder of `t` whose name is a valid identifier. */
  predicate SpansPlaceholder(t: string, c: ParamChunk)
  {
    c.start + 2 <= c.end <= |t| &&
    t[c.start] == '{' && t[c.end - 1] == '}' &&
    (forall m :: c.start < m < c.end - 1 ==> t[m] != '}') &&
    c.name == NamePart(t[c.start + 1..c.end - 1]) && IsIdentifier(c.name)
  }

  /** Placeholder bytes seen one at a time: how the name and the type grow. */
  lemma InnerStep(s: string, c: char)
    ensures (':' in s + [c]) == (':' in s || c == ':')
    ensures ':' !in s ==> TypePart(s) == []
    ensures IsSpace(c) ==> NamePart(s + [c]) == NamePart(s) && TypePart(s + [c]) == TypePart(s)
    ensures !IsSpace(c) && ':' in s ==>
      NamePart(s + [c]) == NamePart(s) && TypePart(s + [c]) == TypePart(s) + [c]
    ensures !IsSpace(c) && ':' !in s && c == ':' ==>
      NamePart(s + [c]) == NamePart(s) && TypePart(s + [c]) == []
    ensures !IsSpace(c) && ':' !in s && c != ':' ==>
      NamePart(s + [c]) == NamePart(s) + [c] && TypePart(s + [c]) == []
  {
    var s' := s + [c];
    var k := IndexOf(s, ':', 0);
    assert s'[..|s|] == s;
    if k < |s| {
      assert ':' in s;
      IndexOfUnique(s', ':', 0, k);
      assert s'[..k] == s[..k];
      assert s'[k + 1..] == s[k + 1..] + [c];
      assert (s[k + 1..] + [c])[..|s[k + 1..]|] == s[k + 1..];
    } else {
      assert ':' !in s by {
        forall m | 0 <= m < |s| ensures s[m] != ':' { }
      }
      assert s[..k] == s;
      if c == ':' {
        IndexOfUnique(s', ':', 0, |s|);
        assert s'[|s| + 1..] == [];
      } else {
        IndexOfUnique(s', ':', 0, |s'|);
        assert s'[..|s'|] == s';
      }
    }
  }

  /**
   * Whitespace inside braces is insignificant: the name and the type of a
   * placeholder are those of its bytes with whitespace removed.
   */
  lemma {:induction false} StripKeepsParts(s: string)
    ensures NamePart(Strip(s)) == NamePart(s)
    ensures TypePart(Strip(s)) == TypePart(s)
    ensures (':' in Strip(s)) == (':' in s)
    decreases |s|
  {
    if s == [] {
    } else {
      var p, c := s[..|s| - 1], s[|s| - 1];
      assert s == p + [c];
      StripKeepsParts(p);
      InnerStep(p, c);
      if IsSpace(c) {
        assert Strip(s) == Strip(p);
      } else {
        assert Strip(s) == Strip(p) + [c];
        InnerStep(Strip(p), c);
      }
    }
  }

  /** So `{ id:   number  }` compiles exactly as `{id:number}` does. */
  lemma PlaceholderIgnoresWhitespace(inner: string, types: Registry)
    ensures Placeholder(Strip(inner), types) == Placeholder(inner, types)
  {
    StripKeepsParts(inner);
  }

  lemma {:induction false} WellPlacedWeaken(chunks: seq<ParamChunk>, from: nat, from': nat, n: nat)
    requires from <= from'
    requires WellPlaced(chunks, from', n)
    ensures WellPlaced(chunks, from, n)
  {
  }

  /** The scan at a literal byte: that byte, then the rest. */
  lemma ScanAtLiteral(t: string, i: nat, types: Registry)
    requires i < |t| && t[i] != '{'
    ensures ScanFrom(t, i, types) == Scan([t[i]] + ScanFrom(t, i + 1, types).body, ScanFrom(t, i + 1, types).chunks)
  {
  }

  /** The scan at a `{` that has a matching `}` at `close`: the placeholder's piece, then the rest. */
  lemma ScanAtBrace(t: string, i: nat, close: nat, types: Registry)
    requires i < |t| && t[i] == '{'
    requires close == IndexOf(t, '}', i + 1) && close < |t|
    ensures var piece := Placeholder(t[i + 1..close], types);
      var rest := ScanFrom(t, close + 1, types);
      ScanFrom(t, i, types).body == piece.text + rest.body &&
      ScanFrom(t, i, types).chunks ==
        (if piece.param.Some? then [ParamChunk(piece.param.value, i, close + 1)] else []) + rest.chunks
  {
  }

  /** The chunk recorded at a `{` spans that placeholder. */
  lemma ChunkAtBrace(t: string, i: nat, close: nat, types: Registry)
    requires i < |t| && t[i] == '{'
    requires close == IndexOf(t, '}', i + 1) && close < |t|
    requires Placeholder(t[i + 1..close], types).param.Some?
    ensures SpansPlaceholder(t, ParamChunk(Placeholder(t[i + 1..close], types).param.value, i, close + 1))
  {
  }

  /** The chunks a scan records lie in order, without overlap, inside the scanned suffix. */
  lemma {:induction false} ScanChunksPlaced(t: string, i: nat, types: Registry)
    requires i <= |t|
    ensures WellPlaced(ScanFrom(t, i, types).chunks, i, |t|)
    decreases |t| - i
  {
    if i == |t| {
    } else if t[i] != '{' {
      ScanChunksPlaced(t, i + 1, types);
      WellPlacedWeaken(ScanFrom(t, i + 1, types).chunks, i, i + 1, |t|);
    } else {
      var close := IndexOf(t, '}', i + 1);
      if close < |t| {
        ScanAtBrace(t, i, close, types);
        var piece := Placeholder(t[i + 1..close], types);
        ScanChunksPlaced(t, close + 1, types);
        var rest := ScanFrom(t, close + 1, types).chunks;
        if piece.param.Some? {
          var chunk := ParamChunk(piece.param.value, i, close + 1);
          assert ([chunk] + rest)[1..] == rest;
        } else {
          assert [] + rest == rest;
          WellPlacedWeaken(rest, i, close + 1, |t|);
        }
      }
    }
  }

  /** Each chunk a scan records spans exactly one `{...}` whose name is an identifier. */
  lemma {:induction false} ScanChunksSpan(t: string, i: nat, types: Registry)
    requires i <= |t|
    ensures forall c :: c in ScanFrom(t, i, types).chunks ==> SpansPlaceholder(t, c)
    decreases |t| - i
  {
    if i == |t| {
    } else if t[i] != '{' {
      ScanChunksSpan(t, i + 1, types);
      ScanAtLiteral(t, i, types);
    } else {
      var close := IndexOf(t, '}', i + 1);
      if close < |t| {
        ScanChunksSpan(t, close + 1, types);
        BraceChunksSpan(t, i, close, types);
      } else {
        Unterminated(t, i, types);
      }
    }
  }

  /** The chunks recorded from a `{` on span placeholders when those recorded after its `}` do. */
  lemma BraceChunksSpan(t: string, i: nat, close: nat, types: Registry)
    requires i < |t| && t[i] == '{'
    requires close == IndexOf(t, '}', i + 1) && close < |t|
    requires forall c :: c in ScanFrom(t, close + 1, types).chunks ==> SpansPlaceholder(t, c)
    ensures forall c :: c in ScanFrom(t, i, types).chunks ==> SpansPlaceholder(t, c)
  {
    ScanAtBrace(t, i, close, types);
    var piece := Placeholder(t[i + 1..close], types);
    var rest := ScanFrom(t, close + 1, types).chunks;
    if piece.param.Some? {
      var chunk := ParamChunk(piece.param.value, i, close + 1);
      ChunkAtBrace(t, i, close, types);
      forall c | c in [chunk] + rest ensures SpansPlaceholder(t, c) {
        if c != chunk {
          assert c in rest;
        }
      }
    } else {
      assert [] + rest == rest;
    }
  }

  /** Every chunk of a compiled template spans a placeholder of it, in template order. */
  lemma CompiledChunks(t: string, types: Registry)
    ensures WellPlaced(Compile(t, types).chunks, 0, |t|)
    ensures forall c :: c in Compile(t, types).chunks ==> SpansPlaceholder(t, c)
    ensures Compile(t, types).names == Names(Compile(t, types).chunks)
  {
    ScanChunksPlaced(t, 0, types);
    ScanChunksSpan(t, 0, types);
  }

  /** Outside braces the template is copied verbatim and in order. */
  lemma {:induction false} ScanLiteral(t: string, i: nat, types: Registry)
    requires i <= |t|
    requires forall m :: i <= m < |t| ==> t[m] != '{'
    ensures ScanFrom(t, i, types) == Scan(t[i..], [])
    decreases |t| - i
  {
    if i < |t| {
      ScanLiteral(t, i + 1, types);
      assert t[i..] == [t[i]] + t[i + 1..];
    }
  }

  /** A template without braces compiles to `^`, itself and the anchor, and records no parameter. */
  lemma LiteralTemplate(t: string, types: Registry)
    requires '{' !in t
    ensures Compile(t, types) == Compiled("^" + t + Anchor("^" + t), [], [])
  {
    ScanLiteral(t, 0, types);
    assert t[0..] == t;
  }

  /** The empty template compiles to `^/?$` with no parameters. */
  lemma EmptyTemplate(types: Registry)
    ensures Compile("", types) == Compiled("^/?$", [], [])
  {
  }

  /** A `{` with no `}` after it ends the scan: nothing more is emitted or recorded. */
  lemma Unterminated(t: string, i: nat, types: Registry)
    requires i < |t| && t[i] == '{'
    requires forall m :: i < m < |t| ==> t[m] != '}'
    ensures ScanFrom(t, i, types) == Scan([], [])
  {
    IndexOfUnique(t, '}', i + 1, |t|);
  }

  /** `{}` emits nothing and records nothing: the scan goes on after it. */
  lemma EmptyPlaceholder(t: string, i: nat, types: Registry)
    requires i + 1 < |t| && t[i] == '{' && t[i + 1] == '}'
    ensures ScanFrom(t, i, types) == ScanFrom(t, i + 2, types)
  {
    assert t[i + 1..i + 1] == [];
  }

  /** A brace-free stretch `t[i..j]` is copied as it is ahead of whatever the rest of the scan yields. */
  lemma {:induction false} ScanLiteralPrefix(t: string, i: nat, j: nat, types: Registry)
    requires i <= j <= |t|
    requires forall m :: i <= m < j ==> t[m] != '{'
    ensures ScanFrom(t, i, types) == Scan(t[i..j] + ScanFrom(t, j, types).body, ScanFrom(t, j, types).chunks)
    decreases j - i
  {
    var tail := ScanFrom(t, j, types);
    if i < j {
      ScanLiteralPrefix(t, i + 1, j, types);
      ScanAtLiteral(t, i, types);
      assert t[i..j] == [t[i]] + t[i + 1..j];
      Regroup([t[i]], t[i + 1..j], tail.body, ScanFrom(t, i, types).body);
    } else {
      assert t[i..j] == [];
    }
  }

  lemma {:induction false} StripNoSpace(s: string)
    requires forall m :: 0 <= m < |s| ==> !IsSpace(s[m])
    ensures Strip(s) == s
    decreases |s|
  {
    if s != [] {
      StripNoSpace(s[..|s| - 1]);
      assert s[..|s| - 1] + [s[|s| - 1]] == s;
    }
  }

  /** The placeholder `{name}`, seen alone, in a registry that does not know `name`. */
  lemma PlainPlaceholder(name: string, types: Registry)
    requires IsIdentifier(name) && ':' !in name && name !in types
    ensures Placeholder(name, types) == Piece("(?P<" + name + ">" + STRING_PATTERN + ")", Some(name))
  {
    IndexOfUnique(name, ':', 0, |name|);
    assert name[..|name|] == name;
    StripNoSpace(name);
  }

  /** The placeholder at offset 7 of `/posts/{name}` is the last piece of the scan. */
  lemma PostsNamePlaceholder(t: string)
    requires t == "/posts/{name}"
    ensures ScanFrom(t, 7, map[]) == Scan("(?P<name>[^/.]+)", [ParamChunk("name", 7, 13)])
  {
    var types: Registry := map[];
    PostsNameClose(t);
    PostsNamePiece();
    assert ScanFrom(t, 13, types) == Scan([], []);
    ScanAtBrace(t, 7, 12, types);
    assert Placeholder("name", types).text + [] == Placeholder("name", types).text;
  }

  lemma PostsNameClose(t: string)
    requires t == "/posts/{name}"
    ensures IndexOf(t, '}', 8) == 12 && t[8..12] == "name"
  {
    IndexOfUnique(t, '}', 8, 12);
  }

  lemma PostsNamePiece()
    ensures Placeholder("name", map[]) == Piece("(?P<name>[^/.]+)", Some("name"))
  {
    var name := "name";
    assert IsIdentifier(name) by {
      assert |name| == 4 && IsIdentStart(name[0]);
    }
    PlainPlaceholder(name, map[]);
    PostsNameText(name);
  }

  lemma PostsNameText(name: string)
    requires name == "name"
    ensures "(?P<" + name + ">" + STRING_PATTERN + ")" == "(?P<name>[^/.]+)"
  {
  }

  lemma PostsNameScan(t: string)
    requires t == "/posts/{name}"
    ensures ScanFrom(t, 0, map[]) == Scan("/posts/" + "(?P<name>[^/.]+)", [ParamChunk("name", 7, 13)])
  {
    PostsNamePlaceholder(t);
    ScanLiteralPrefix(t, 0, 7, map[]);
    assert t[0..7] == "/posts/";
  }

  /**
   * `/posts/{name}` (src/recognizer/tests.rs:48-59): the string fragment, and the chunk 7..13.
   * The template is a parameter so that the verifier unfolds the scan only as far as the proof asks.
   */
  lemma PostsNameExample(t: string)
    requires t == "/posts/{name}"
    ensures Compile(t, map[]) ==
      Compiled("^/posts/(?P<name>[^/.]+)/?$", ["name"], [ParamChunk("name", 7, 13)])
  {
    PostsNameScan(t);
    PostsNamePattern(ScanFrom(t, 0, map[]).body);
    assert Names([ParamChunk("name", 7, 13)]) == ["name"];
  }

  lemma PostsNamePattern(body: string)
    requires body == "/posts/" + "(?P<name>[^/.]+)"
    ensures "^" + body + Anchor("^" + body) == "^/posts/(?P<name>[^/.]+)/?$"
  {
  }

  /** The placeholder `{tail:.*}`: the type `.*` is not a registry key, so the string fragment is used. */
  lemma TailPiece(inner: string)
    requires inner == "tail:.*"
    ensures Placeholder(inner, map[]) == Piece("(?P<tail>[^/.]+)", Some("tail"))
  {
    TailParts(inner);
    var name := "tail";
    assert IsIdentifier(name) by {
      assert |name| == 4 && IsIdentStart(name[0]);
    }
  }

  lemma TailParts(inner: string)
    requires inner == "tail:.*"
    ensures NamePart(inner) == "tail" && TypePart(inner) == ".*"
  {
    IndexOfUnique(inner, ':', 0, 4);
    assert inner[..4] == "tail";
    assert inner[5..] == ".*";
    StripNoSpace("tail");
    StripNoSpace(".*");
  }

  /** The placeholder at offset 7 of `/posts/{tail:.*}` is the last piece of the scan. */
  lemma TailPlaceholder(t: string)
    requires t == "/posts/{tail:.*}"
    ensures ScanFrom(t, 7, map[]) == Scan("(?P<tail>[^/.]+)", [ParamChunk("tail", 7, 16)])
  {
    var types: Registry := map[];
    IndexOfUnique(t, '}', 8, 15);
    assert t[8..15] == "tail:.*";
    TailPiece(t[8..15]);
    assert ScanFrom(t, 16, types) == Scan([], []);
    ScanAtBrace(t, 7, 15, types);
    assert Placeholder("tail:.*", types).text + [] == Placeholder("tail:.*", types).text;
  }

  /**
   * `/posts/{tail:.*}` (src/recognizer/tests.rs:61-73): the type `.*` is no registry key, so
   * the compiled pattern uses the string fragment `[^/.]+`, not `.*`; the chunk is 7..16.
   */
  lemma TailTypeExample(t: string)
    requires t == "/posts/{tail:.*}"
    ensures Compile(t, map[]) ==
      Compiled("^/posts/(?P<tail>[^/.]+)/?$", ["tail"], [ParamChunk("tail", 7, 16)])
  {
    TailPlaceholder(t);
    ScanLiteralPrefix(t, 0, 7, map[]);
    assert t[0..7] == "/posts/";
    TailPattern(ScanFrom(t, 0, map[]).body);
    assert Names([ParamChunk("tail", 7, 16)]) == ["tail"];
  }

  lemma TailPattern(body: string)
    requires body == "/posts/" + "(?P<tail>[^/.]+)"
    ensures "^" + body + Anchor("^" + body) == "^/posts/(?P<tail>[^/.]+)/?$"
  {
  }
}
