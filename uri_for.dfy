/**
 * Reverse routing: building a URI for a registered route (src/uri_for/mod.rs).
 *
 * Parameters that name a placeholder of the route's template are spliced
 * into the template at the placeholder's byte span; the parameters left over
 * become the query string, in ascending key order. The base URI (the URI of
 * the current request) provides the scheme and the authority.
 */
module UriFor {
  import opened Wrappers
  import opened Text
  import opened GlobSyntax
  import opened RouteParams
  import opened Recognizer
  import opened Router

  /** The parts of the request URI that generation reads; `*` is the asterisk form. */
  datatype BaseUri = Asterisk | Uri(scheme: Option<string>, authority: Option<string>, path: string)

  /** Replace the bytes `[start, end)` of the source by `value`. */
  datatype Replacement = Replacement(start: nat, end: nat, value: string)

  datatype UriError =
    | RouterMissing            // the request carries no route table
    | UnknownRouteId(id: Id)   // no route was registered under the id
    | SliceOutOfRange          // `replace_params` slices outside the source and panics

  // ---------------------------------------------------------------------------
  // replace_params

  predicate SortedByStart(reps: seq<Replacement>)
  {
    forall i, j :: 0 <= i < j < |reps| ==> reps[i].start <= reps[j].start
  }

  /** Insert `r` into `sorted` before the first replacement that does not start earlier. */
  function InsertByStart(r: Replacement, sorted: seq<Replacement>): (out: seq<Replacement>)
    ensures multiset(out) == multiset(sorted) + multiset{r}
    ensures out != [] && (out[0] == r || (sorted != [] && out[0] == sorted[0]))
    decreases |sorted|
  {
    if sorted == [] || r.start <= sorted[0].start then [r] + sorted
    else
      assert sorted == [sorted[0]] + sorted[1..];
      [sorted[0]] + InsertByStart(r, sorted[1..])
  }

  lemma {:induction false} InsertSorted(r: Replacement, sorted: seq<Replacement>)
    requires SortedByStart(sorted)
    ensures SortedByStart(InsertByStart(r, sorted))
    decreases |sorted|
  {
    var out := InsertByStart(r, sorted);
    if sorted != [] && r.start > sorted[0].start {
      var tail := InsertByStart(r, sorted[1..]);
      InsertSorted(r, sorted[1..]);
      assert out == [sorted[0]] + tail;
      assert sorted[0].start <= tail[0].start by {
        if tail[0] != r {
          assert tail[0] == sorted[1];
        }
      }
      forall i, j | 0 <= i < j < |out| ensures out[i].start <= out[j].start {
        if i == 0 {
          assert out[j] == tail[j - 1];
          if j > 1 {
            assert tail[0].start <= tail[j - 1].start;
          }
        } else {
          assert out[i] == tail[i - 1] && out[j] == tail[j - 1];
        }
      }
    }
  }

  /** `sort_by` on the start offset: a stable insertion sort. */
  function SortByStart(reps: seq<Replacement>): (sorted: seq<Replacement>)
    ensures SortedByStart(sorted)
    ensures multiset(sorted) == multiset(reps)
    decreases |reps|
  {
    if reps == [] then []
    else
      var rest := SortByStart(reps[1..]);
      InsertSorted(reps[0], rest);
      assert multiset(reps) == multiset(reps[1..]) + multiset{reps[0]} by {
        assert reps == [reps[0]] + reps[1..];
      }
      InsertByStart(reps[0], rest)
  }

  /** Sorting replacements that are already in start order changes nothing. */
  lemma {:induction false} SortSortedIsIdentity(reps: seq<Replacement>)
    requires SortedByStart(reps)
    ensures SortByStart(reps) == reps
    decreases |reps|
  {
    if reps != [] {
      SortSortedIsIdentity(reps[1..]);
      assert reps == [reps[0]] + reps[1..];
    }
  }

  /** The walk of `replace_params` from byte `index` over start-sorted replacements; None where a slice is out of range. */
  function Splice(source: string, reps: seq<Replacement>, index: nat): Option<string>
    decreases |reps|
  {
    if reps == [] then Some(if index < |source| then source[index..] else [])
    else if reps[0].start < index || reps[0].start > |source| then None
    else
      match Splice(source, reps[1..], reps[0].end)
      case None => None
      case Some(tail) => Some(source[index..reps[0].start] + reps[0].value + tail)
  }

  /** What `replace_params` produces: sort by start, then splice. */
  function Replaced(source: string, reps: seq<Replacement>): Option<string>
  {
    Splice(source, SortByStart(reps), 0)
  }

  /** Each replacement starts at or after the previous one's end and no later than the end of the source. */
  predicate Fits(reps: seq<Replacement>, index: nat, n: nat)
    decreases |reps|
  {
    reps == [] || (index <= reps[0].start <= n && Fits(reps[1..], reps[0].end, n))
  }

  /** Splicing succeeds exactly when the replacements fit the source. */
  lemma {:induction false} SpliceDefined(source: string, reps: seq<Replacement>, index: nat)
    ensures Splice(source, reps, index).Some? <==> Fits(reps, index, |source|)
    decreases |reps|
  {
    if reps != [] {
      SpliceDefined(source, reps[1..], reps[0].end);
    }
  }

  /**
   * Bytes outside the replaced ranges are kept in order: splicing back the
   * very text each range covers gives the source from `index` on.
   */
  lemma {:induction false} SpliceOwnText(source: string, reps: seq<Replacement>, index: nat)
    requires index <= |source| && Fits(reps, index, |source|)
    requires forall r :: r in reps ==> r.start <= r.end <= |source| && r.value == source[r.start..r.end]
    ensures Splice(source, reps, index) == Some(source[index..])
    decreases |reps|
  {
    if reps != [] {
      var r := reps[0];
      assert r in reps;
      assert forall q :: q in reps[1..] ==> q in reps;
      SpliceOwnText(source, reps[1..], r.end);
      SpliceStep(source, reps, index);
      assert source[index..r.start] + source[r.start..r.end] + source[r.end..] == source[index..];
    } else {
      assert index == |source| ==> source[index..] == [];
    }
  }

  function Prepend(s: string, o: Option<string>): Option<string>
  {
    match o
    case None => None
    case Some(t) => Some(s + t)
  }

  /**
   * `replace_params`: with no replacements the source unchanged; otherwise
   * the replacements sorted by start, each preceded by the source bytes
   * since the previous one's end, then the rest of the source. None stands
   * for the panic of an out-of-range slice.
   */
  method ReplaceParams(source: string, reps: seq<Replacement>) returns (target: Option<string>)
    ensures target == Replaced(source, reps)
    ensures reps == [] ==> target == Some(source)
    ensures target.Some? <==> Fits(SortByStart(reps), 0, |source|)
  {
    SpliceDefined(source, SortByStart(reps), 0);
    if reps == [] {
      assert source[0..] == source;
      return Some(source);
    }
    var sorted := SortByStart(reps);
    var out: string := [];
    var index: nat := 0;
    assert sorted[0..] == sorted;
    assert Prepend([], Splice(source, sorted, 0)) == Splice(source, sorted, 0) by {
      if Splice(source, sorted, 0).Some? {
        assert [] + Splice(source, sorted, 0).value == Splice(source, sorted, 0).value;
      }
    }
    for k := 0 to |sorted|
      invariant Splice(source, sorted, 0) == Prepend(out, Splice(source, sorted[k..], index))
    {
      var r := sorted[k];
      assert sorted[k..][0] == r && sorted[k..][1..] == sorted[k + 1..];
      if r.start < index || r.start > |source| {
        assert Splice(source, sorted[k..], index) == None;
        return None;
      }
      SpliceStep(source, sorted[k..], index);
      PrependTwice(out, source[index..r.start] + r.value, Splice(source, sorted[k + 1..], r.end));
      out := out + (source[index..r.start] + r.value);
      index := r.end;
    }
    assert sorted[|sorted|..] == [];
    ghost var tail: string := if index < |source| then source[index..] else [];
    assert Splice(source, sorted, 0) == Some(out + tail);
    if index < |source| {
      out := out + source[index..];
    } else {
      assert out + tail == out;
    }
    target := Some(out);
  }

  /** One replacement of the walk: the source bytes before it, its value, then the walk from its end. */
  lemma SpliceStep(source: string, reps: seq<Replacement>, index: nat)
    requires reps != [] && index <= reps[0].start <= |source|
    ensures Splice(source, reps, index) ==
      Prepend(source[index..reps[0].start] + reps[0].value, Splice(source, reps[1..], reps[0].end))
  {
  }

  lemma PrependTwice(a: string, b: string, o: Option<string>)
    ensures Prepend(a, Prepend(b, o)) == Prepend(a + b, o)
  {
    if o.Some? {
      assert a + (b + o.value) == (a + b) + o.value;
    }
  }

  /** Replacements that fit, with each start no later than its end, are in start order. */
  lemma {:induction false} FitsSorted(reps: seq<Replacement>, index: nat, n: nat)
    requires Fits(reps, index, n)
    requires forall r :: r in reps ==> r.start <= r.end
    ensures SortedByStart(reps)
    ensures forall r :: r in reps ==> index <= r.start
    decreases |reps|
  {
    if reps != [] {
      FitsSorted(reps[1..], reps[0].end, n);
      forall i, j | 0 <= i < j < |reps| ensures reps[i].start <= reps[j].start {
        if i > 0 {
          assert reps[i] == reps[1..][i - 1] && reps[j] == reps[1..][j - 1];
        } else {
          assert reps[j] in reps[1..];
        }
      }
    }
  }

  // ---------------------------------------------------------------------------
  // generate_for_glob

  /** The names of the chunks. */
  function ChunkNames(chunks: seq<ParamChunk>): set<string>
  {
    set c | c in chunks :: c.name
  }

  /**
   * The replacements `generate_for_glob` records: walking the chunks in
   * order, a chunk whose name is still among the parameters takes that
   * value, and the name is consumed.
   */
  function Picked(chunks: seq<ParamChunk>, params: Params): seq<Replacement>
    decreases |chunks|
  {
    if chunks == [] then []
    else
      var c := chunks[0];
      if c.name in params then [Replacement(c.start, c.end, params[c.name])] + Picked(chunks[1..], params - {c.name})
      else Picked(chunks[1..], params)
  }

  /** What `generate_for_glob` yields: the spliced template, and the parameters no chunk consumed. */
  function GlobStep(source: string, chunks: seq<ParamChunk>, params: Params): (Option<string>, Params)
  {
    (Replaced(source, Picked(chunks, params)), params - ChunkNames(chunks))
  }

  /** Every picked replacement covers a chunk whose name was supplied, and carries the supplied value. */
  lemma {:induction false} PickedFromChunks(chunks: seq<ParamChunk>, params: Params)
    ensures forall r :: r in Picked(chunks, params) ==>
      exists c :: c in chunks && c.start == r.start && c.end == r.end && c.name in params && r.value == params[c.name]
    decreases |chunks|
  {
    if chunks != [] {
      var c := chunks[0];
      var params' := if c.name in params then params - {c.name} else params;
      PickedFromChunks(chunks[1..], params');
      forall r | r in Picked(chunks[1..], params')
        ensures exists c' :: c' in chunks && c'.start == r.start && c'.end == r.end && c'.name in params && r.value == params[c'.name]
      {
        var c' :| c' in chunks[1..] && c'.start == r.start && c'.end == r.end && c'.name in params' && r.value == params'[c'.name];
        assert c' in chunks;
      }
    }
  }

  /** How the supplied names among a chunk list shrink when the first chunk is consumed. */
  lemma SuppliedAfter(params: Params, n: string, names: set<string>, later: set<string>)
    requires names == {n} + later
    ensures n in params ==> (params - {n}).Keys * later == (params.Keys * names) - {n}
    ensures n in params ==> |(params - {n}).Keys * later| == |params.Keys * names| - 1
    ensures n !in params ==> params.Keys * later == params.Keys * names
  {
    if n in params {
      var both := params.Keys * names;
      assert (params - {n}).Keys == params.Keys - {n};
      assert (params - {n}).Keys * later == both - {n};
      assert n in both;
    }
  }

  /** One replacement is recorded per distinct supplied chunk name. */
  lemma {:induction false} PickedCount(chunks: seq<ParamChunk>, params: Params)
    ensures |Picked(chunks, params)| == |params.Keys * ChunkNames(chunks)|
    decreases |chunks|
  {
    if chunks != [] {
      var c := chunks[0];
      var rest := chunks[1..];
      assert ChunkNames(chunks) == {c.name} + ChunkNames(rest) by {
        assert chunks == [c] + rest;
      }
      SuppliedAfter(params, c.name, ChunkNames(chunks), ChunkNames(rest));
      if c.name in params {
        PickedCount(rest, params - {c.name});
        assert Picked(chunks, params) == [Replacement(c.start, c.end, params[c.name])] + Picked(rest, params - {c.name});
      } else {
        PickedCount(rest, params);
        assert Picked(chunks, params) == Picked(rest, params);
      }
    }
  }

  /** Chunks that lie in order inside `[from, n)` give replacements that fit the source. */
  lemma {:induction false} PickedFits(chunks: seq<ParamChunk>, params: Params, from: nat, n: nat)
    requires WellPlaced(chunks, from, n)
    ensures Fits(Picked(chunks, params), from, n)
    ensures forall r :: r in Picked(chunks, params) ==> r.start <= r.end
    decreases |chunks|
  {
    if chunks != [] {
      var c := chunks[0];
      if c.name in params {
        PickedFits(chunks[1..], params - {c.name}, c.end, n);
      } else {
        WellPlacedWeaken(chunks[1..], from, c.end, n);
        PickedFits(chunks[1..], params, from, n);
      }
    }
  }

  /**
   * For a route compiled from `template`, splicing never leaves the
   * template and needs no reordering; a route that no supplied parameter
   * names yields the template verbatim, placeholders and all.
   */
  lemma GlobStepDefined(template: string, route: Recognizer, params: Params)
    requires SpansOf(template, route)
    ensures GlobStep(template, route.chunks, params).0.Some?
    ensures SortByStart(Picked(route.chunks, params)) == Picked(route.chunks, params)
    ensures params.Keys !! ChunkNames(route.chunks) ==>
      GlobStep(template, route.chunks, params) == (Some(template), params)
  {
    var reps := Picked(route.chunks, params);
    PickedFits(route.chunks, params, 0, |template|);
    FitsSorted(reps, 0, |template|);
    SortSortedIsIdentity(reps);
    SpliceDefined(template, reps, 0);
    if params.Keys !! ChunkNames(route.chunks) {
      PickedCount(route.chunks, params);
      assert params.Keys * ChunkNames(route.chunks) == {};
      assert template[0..] == template;
      assert params - ChunkNames(route.chunks) == params;
    }
  }

  /**
   * `generate_for_glob`: consume, chunk by chunk, each supplied parameter
   * that names a placeholder, then splice the values into the template.
   */
  method GenerateForGlob(source: string, route: Recognizer, params: Params) returns (path: Option<string>, rest: Params)
    ensures (path, rest) == GlobStep(source, route.chunks, params)
  {
    var reps: seq<Replacement> := [];
    rest := params;
    for k := 0 to |route.chunks|
      invariant rest == params - ChunkNames(route.chunks[..k])
      invariant reps + Picked(route.chunks[k..], rest) == Picked(route.chunks, params)
    {
      var c := route.chunks[k];
      assert route.chunks[k..][0] == c && route.chunks[k..][1..] == route.chunks[k + 1..];
      assert ChunkNames(route.chunks[..k + 1]) == ChunkNames(route.chunks[..k]) + {c.name} by {
        assert route.chunks[..k + 1] == route.chunks[..k] + [c];
      }
      if c.name in rest {
        assert reps + [Replacement(c.start, c.end, rest[c.name])] + Picked(route.chunks[k + 1..], rest - {c.name})
            == reps + ([Replacement(c.start, c.end, rest[c.name])] + Picked(route.chunks[k + 1..], rest - {c.name}));
        reps := reps + [Replacement(c.start, c.end, rest[c.name])];
        rest := rest - {c.name};
      } else {
        assert rest - {c.name} == rest;
      }
    }
    assert route.chunks[..|route.chunks|] == route.chunks;
    assert rest == params - ChunkNames(route.chunks);
    assert Picked(route.chunks[|route.chunks|..], rest) == [];
    assert reps + [] == reps;
    assert reps == Picked(route.chunks, params);
    path := ReplaceParams(source, reps);
  }

  // ---------------------------------------------------------------------------
  // generate_for_regex_captures

  /** The names of the named groups. */
  function GroupNames(groups: seq<Option<string>>): set<string>
  {
    set g | g in groups && g.Some? :: g.value
  }

  /**
   * The replacements `generate_for_regex_captures` records: walking the
   * groups in order, a named group whose name is still supplied consumes it,
   * and records a replacement only when the group took part in the match.
   */
  function RegexPicked(groups: seq<Option<string>>, caps: map<string, Group>, params: Params): seq<Replacement>
    decreases |groups|
  {
    if groups == [] then []
    else
      match groups[0]
      case None => RegexPicked(groups[1..], caps, params)
      case Some(n) =>
        if n !in params then RegexPicked(groups[1..], caps, params)
        else
          (if n in caps then [Replacement(caps[n].start, caps[n].end, params[n])] else []) +
          RegexPicked(groups[1..], caps, params - {n})
  }

  /**
   * Every recorded replacement covers the span of a named group that took
   * part in the match and whose name was supplied, and carries the supplied value.
   */
  lemma {:induction false} RegexPickedFromGroups(groups: seq<Option<string>>, caps: map<string, Group>, params: Params)
    ensures forall r :: r in RegexPicked(groups, caps, params) ==>
      exists n :: Some(n) in groups && n in caps && n in params &&
        r.start == caps[n].start && r.end == caps[n].end && r.value == params[n]
    decreases |groups|
  {
    if groups != [] {
      var params' := if groups[0].Some? && groups[0].value in params then params - {groups[0].value} else params;
      RegexPickedFromGroups(groups[1..], caps, params');
      forall r | r in RegexPicked(groups, caps, params)
        ensures exists n :: Some(n) in groups && n in caps && n in params &&
                            r.start == caps[n].start && r.end == caps[n].end && r.value == params[n]
      {
        if r in RegexPicked(groups[1..], caps, params') {
          var n :| Some(n) in groups[1..] && n in caps && n in params' &&
            r.start == caps[n].start && r.end == caps[n].end && r.value == params'[n];
          assert Some(n) in groups;
        } else {
          var n := groups[0].value;
          assert Some(n) in groups;
          assert r == Replacement(caps[n].start, caps[n].end, params[n]);
        }
      }
    }
  }

  /** What `generate_for_regex_captures` yields when the pattern does or does not match the source. */
  function RegexStep(source: string, pattern: string, engine: Engine, params: Params): (Option<string>, Params)
  {
    match engine.captures(pattern, source)
    case None => (Some(source), params)
    case Some(caps) =>
      var groups := engine.groupNames(pattern);
      (Replaced(source, RegexPicked(groups, caps, params)), params - GroupNames(groups))
  }

  /**
   * `generate_for_regex_captures`: when the route's pattern matches the
   * source, each supplied parameter named by a group is consumed (whether or
   * not its group took part) and, if the group took part, spliced over the
   * group's span; otherwise the source and the parameters stay as they are.
   */
  method GenerateForRegexCaptures(source: string, pattern: string, engine: Engine, params: Params)
    returns (path: Option<string>, rest: Params)
    ensures (path, rest) == RegexStep(source, pattern, engine, params)
    ensures engine.captures(pattern, source).None? ==> path == Some(source) && rest == params
  {
    var caps := engine.captures(pattern, source);
    if caps.Some? {
      var reps;
      reps, rest := CollectGroups(engine.groupNames(pattern), caps.value, params);
      path := ReplaceParams(source, reps);
    } else {
      rest := params;
      path := ReplaceParams(source, []);
    }
  }

  /** The loop of `generate_for_regex_captures` over the pattern's groups. */
  method CollectGroups(groups: seq<Option<string>>, caps: map<string, Group>, params: Params)
    returns (reps: seq<Replacement>, rest: Params)
    ensures reps == RegexPicked(groups, caps, params)
    ensures rest == params - GroupNames(groups)
  {
    reps := [];
    rest := params;
    for k := 0 to |groups|
      invariant rest == params - GroupNames(groups[..k])
      invariant reps + RegexPicked(groups[k..], caps, rest) == RegexPicked(groups, caps, params)
    {
      GroupNamesSnoc(groups, k);
      RegexPickedAt(groups, k, caps, rest);
      if groups[k].Some? && groups[k].value in rest {
        var name := groups[k].value;
        var taken := if name in caps then [Replacement(caps[name].start, caps[name].end, rest[name])] else [];
        Regroup(reps, taken, RegexPicked(groups[k + 1..], caps, rest - {name}), RegexPicked(groups, caps, params));
        reps := reps + taken;
        rest := rest - {name};
      } else if groups[k].Some? {
        assert rest - {groups[k].value} == rest;
      }
    }
    assert groups[..|groups|] == groups;
    assert reps + [] == reps;
  }

  /** One step of `RegexPicked` from position `k`. */
  lemma RegexPickedAt(groups: seq<Option<string>>, k: nat, caps: map<string, Group>, params: Params)
    requires k < |groups|
    ensures groups[k].None? ==> RegexPicked(groups[k..], caps, params) == RegexPicked(groups[k + 1..], caps, params)
    ensures groups[k].Some? && groups[k].value !in params ==>
      RegexPicked(groups[k..], caps, params) == RegexPicked(groups[k + 1..], caps, params)
    ensures groups[k].Some? && groups[k].value in params ==>
      var n := groups[k].value;
      RegexPicked(groups[k..], caps, params) ==
        (if n in caps then [Replacement(caps[n].start, caps[n].end, params[n])] else []) +
        RegexPicked(groups[k + 1..], caps, params - {n})
  {
    assert groups[k..][0] == groups[k] && groups[k..][1..] == groups[k + 1..];
  }

  /** The names of one more group. */
  lemma GroupNamesSnoc(groups: seq<Option<string>>, k: nat)
    requires k < |groups|
    ensures GroupNames(groups[..k + 1]) ==
      GroupNames(groups[..k]) + (if groups[k].Some? then {groups[k].value} else {})
  {
    assert groups[..k + 1] == groups[..k] + [groups[k]];
  }

  // ---------------------------------------------------------------------------
  // generate and uri_for

  /** Scheme and `://` when there is a scheme, then the authority when there is one. */
  function Origin(scheme: Option<string>, authority: Option<string>): string
  {
    (if scheme.Some? then scheme.value + "://" else "") + (if authority.Some? then authority.value else "")
  }

  /** `key=value` for each key of `keys`, in that order. */
  function Pairs(params: Params, keys: seq<string>): (pairs: seq<string>)
    requires forall k :: k in keys ==> k in params
    ensures |pairs| == |keys|
    ensures forall i :: 0 <= i < |keys| ==> pairs[i] == keys[i] + "=" + params[keys[i]]
  {
    seq(|keys|, i requires 0 <= i < |keys| => keys[i] + "=" + params[keys[i]])
  }

  /** The query string: every pair in ascending key order, `&` between neighbours. */
  function QueryOf(params: Params): string
  {
    Join(Pairs(params, SortedKeys(params.Keys)), '&')
  }

  /** The URI `generate` produces from its parts: no `?` when no parameter is left. */
  function Assemble(scheme: Option<string>, authority: Option<string>, path: string, rest: Params): string
  {
    Origin(scheme, authority) + path + (if |rest| == 0 then "" else "?" + QueryOf(rest))
  }

  /** What `UriFor::generate` yields: the asterisk form unchanged, else the assembled URI. */
  function Generated(base: BaseUri, template: Option<string>, route: Recognizer, params: Params, engine: Engine)
    : Result<string, UriError>
  {
    match base
    case Asterisk => Ok("*")
    case Uri(scheme, authority, basePath) =>
      var (path, rest) := if template.Some? then GlobStep(template.value, route.chunks, params)
                          else RegexStep(basePath, route.pattern, engine, params);
      if path.None? then Err(SliceOutOfRange) else Ok(Assemble(scheme, authority, path.value, rest))
  }

  /** The query written so far after `k` of the pairs: a `&` follows each pair but the last. */
  function QueryPrefix(pairs: seq<string>, k: nat): string
    requires k <= |pairs|
  {
    if k == 0 then [] else Join(pairs[..k], '&') + (if k < |pairs| then "&" else "")
  }

  /**
   * `UriFor::generate`: the asterisk form is returned as it is; otherwise
   * the scheme and authority of the base URI, the generated path when it is
   * not empty, and `?` with the leftover parameters when any are left.
   */
  method Generate(base: BaseUri, template: Option<string>, route: Recognizer, params: Params, engine: Engine)
    returns (res: Result<string, UriError>)
    ensures res == Generated(base, template, route, params, engine)
    ensures base.Asterisk? ==> res == Ok("*")
  {
    if base.Asterisk? {
      return Ok("*");
    }
    var uri: string := [];
    if base.scheme.Some? {
      uri := uri + base.scheme.value + "://";
    }
    if base.authority.Some? {
      uri := uri + base.authority.value;
    }
    assert uri == Origin(base.scheme, base.authority);
    var path, rest;
    if template.Some? {
      path, rest := GenerateForGlob(template.value, route, params);
    } else {
      path, rest := GenerateForRegexCaptures(base.path, route.pattern, engine, params);
    }
    if path.None? {
      return Err(SliceOutOfRange);
    }
    if |path.value| > 0 {
      uri := uri + path.value;
    } else {
      assert uri + path.value == uri;
    }
    assert uri == Origin(base.scheme, base.authority) + path.value;
    var query: string := [];
    if |rest| > 0 {
      var pairs := WriteQuery(rest);
      query := "?" + pairs;
    }
    res := Ok(uri + query);
  }

  /** The query loop of `generate`: each leftover pair in ascending key order, `&` between neighbours. */
  method WriteQuery(rest: Params) returns (query: string)
    ensures query == QueryOf(rest)
  {
    query := [];
    var keys := SortedKeys(rest.Keys);
    ghost var pairs := Pairs(rest, keys);
    var count := |rest|;
    for index := 0 to count
      invariant query == QueryPrefix(pairs, index)
    {
      var key := keys[index];
      QueryStep(pairs, index, key, rest[key]);
      query := query + key + "=" + rest[key];
      if index < count - 1 {
        query := query + "&";
      } else {
        assert query + "" == query;
      }
    }
    assert pairs[..count] == pairs;
  }

  /** One round of the query loop in `generate`: the pair `key=value`, then `&` unless it is the last. */
  lemma QueryStep(pairs: seq<string>, k: nat, key: string, value: string)
    requires k < |pairs| && pairs[k] == key + "=" + value
    ensures QueryPrefix(pairs, k + 1) ==
      QueryPrefix(pairs, k) + key + "=" + value + (if k < |pairs| - 1 then "&" else "")
  {
    var sep: string := if k < |pairs| - 1 then "&" else "";
    if k > 0 {
      JoinSnoc(pairs[..k], pairs[k], '&');
      assert pairs[..k + 1] == pairs[..k] + [pairs[k]];
      assert QueryPrefix(pairs, k + 1) == Join(pairs[..k], '&') + "&" + pairs[k] + sep;
    } else {
      assert pairs[..1] == [pairs[0]];
    }
  }

  /**
   * `uri_for`: look up the route id in the table the request carries and
   * generate from the route's own template.
   */
  method UriFor(table: Option<map<Id, Registration>>, base: BaseUri, id: Id, params: Params, engine: Engine)
    returns (res: Result<string, UriError>)
    ensures table.None? ==> res == Err(RouterMissing)
    ensures table.Some? && id !in table.value ==> res == Err(UnknownRouteId(id))
    ensures table.Some? && id in table.value ==>
      res == Generated(base, Some(table.value[id].template), table.value[id].route, params, engine)
  {
    if table.None? {
      return Err(RouterMissing);
    }
    if id !in table.value {
      return Err(UnknownRouteId(id));
    }
    var registration := table.value[id];
    res := Generate(base, Some(registration.template), registration.route, params, engine);
  }

  /**
   * For a route registered through a valid table, URI generation always
   * succeeds: the asterisk form gives `*`, and otherwise the supplied values
   * are spliced into the template and the rest become the query.
   */
  lemma GeneratedForRegistration(template: string, route: Recognizer, base: BaseUri, params: Params, engine: Engine)
    requires SpansOf(template, route)
    ensures Generated(base, Some(template), route, params, engine).Ok?
    ensures Splice(template, Picked(route.chunks, params), 0).Some?
    ensures base.Uri? ==>
      Generated(base, Some(template), route, params, engine) ==
        Ok(Assemble(base.scheme, base.authority, Splice(template, Picked(route.chunks, params), 0).value,
                    params - ChunkNames(route.chunks)))
  {
    GlobStepDefined(template, route, params);
  }

  // ---------------------------------------------------------------------------
  // the query string read back

  /** A `key=value` pair read back: the key runs to the first `=`. */
  function ParsePair(pair: string): (string, string)
  {
    var k := IndexOf(pair, '=', 0);
    (pair[..k], if k < |pair| then pair[k + 1..] else "")
  }

  function ParsePairs(pairs: seq<string>): map<string, string>
    decreases |pairs|
  {
    if pairs == [] then map[]
    else
      var kv := ParsePair(pairs[|pairs| - 1]);
      ParsePairs(pairs[..|pairs| - 1])[kv.0 := kv.1]
  }

  /** A query string read back into parameters. */
  function ParseQuery(q: string): map<string, string>
  {
    ParsePairs(Split(q, '&'))
  }

  /** Keys free of `=` and `&` and values free of `&` keep the query string unambiguous. */
  predicate QuerySafe(params: Params)
  {
    forall k :: k in params ==> '=' !in k && '&' !in k && '&' !in params[k]
  }

  lemma ParsePairOf(k: string, v: string)
    requires '=' !in k
    ensures ParsePair(k + "=" + v) == (k, v)
  {
    var pair := k + "=" + v;
    IndexOfUnique(pair, '=', 0, |k|);
    assert pair[..|k|] == k;
    assert pair[|k| + 1..] == v;
  }

  lemma {:induction false} ParsePairsOf(params: Params, keys: seq<string>)
    requires forall k :: k in keys ==> k in params
    requires QuerySafe(params)
    ensures forall k :: k in ParsePairs(Pairs(params, keys)) <==> k in keys
    ensures forall k :: k in keys ==> ParsePairs(Pairs(params, keys))[k] == params[k]
    decreases |keys|
  {
    if keys != [] {
      var init := keys[..|keys| - 1];
      var last := keys[|keys| - 1];
      assert keys == init + [last];
      ParsePairsOf(params, init);
      assert Pairs(params, keys)[..|keys| - 1] == Pairs(params, init);
      ParsePairOf(last, params[last]);
    }
  }

  /** A pair holds a character other than `=` only if its key or its value does. */
  lemma PairFree(k: string, v: string, c: char)
    requires c != '=' && c !in k && c !in v
    ensures c !in k + "=" + v
  {
    forall i | 0 <= i < |k + "=" + v| ensures (k + "=" + v)[i] != c {
      if i < |k| {
        assert (k + "=" + v)[i] == k[i];
      } else if i > |k| {
        assert (k + "=" + v)[i] == v[i - |k| - 1];
      }
    }
  }

  /** No pair of a query-safe map holds `&`. */
  lemma PairsFree(params: Params, keys: seq<string>)
    requires forall k :: k in keys ==> k in params
    requires QuerySafe(params)
    ensures forall i :: 0 <= i < |keys| ==> '&' !in Pairs(params, keys)[i]
  {
    forall i | 0 <= i < |keys| ensures '&' !in Pairs(params, keys)[i] {
      PairFree(keys[i], params[keys[i]], '&');
    }
  }

  /**
   * Reading the query string back gives the leftover parameters, as long as
   * no key holds `=` or `&` and no value holds `&` (the generator escapes
   * nothing).
   */
  lemma QueryRoundTrip(params: Params)
    requires |params| > 0
    requires QuerySafe(params)
    ensures ParseQuery(QueryOf(params)) == params
  {
    var keys := SortedKeys(params.Keys);
    var pairs := Pairs(params, keys);
    assert QueryOf(params) == Join(pairs, '&');
    PairsFree(params, keys);
    var some :| some in params;
    assert some in keys;
    SplitJoin(pairs, '&');
    ParsePairsOf(params, keys);
    SameEntries(ParsePairs(pairs), params);
  }

  /** Two maps with the same keys and the same value at each key are equal. */
  lemma SameEntries(a: map<string, string>, b: map<string, string>)
    requires forall k :: k in a <==> k in b
    requires forall k :: k in b ==> a[k] == b[k]
    ensures a == b
  {
  }
}
