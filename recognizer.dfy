/**
 * Compiled routes and their recognition (src/recognizer/mod.rs).
 *
 * `ParseGlob` is the byte scanner of `Recognizer::parse_glob`, proved equal to
 * the reference compilation `GlobSyntax.Compile`. Regex compilation and
 * matching belong to a library the model does not look inside: an `Engine`
 * value stands for it.
 */
module Recognizer {
  import opened Wrappers
  import opened Text
  import opened PatternTypes
  import opened GlobSyntax
  import opened RouteParams

  /** A named capture group that took part in a match: its byte span in the subject and its text. */
  datatype Group = Group(start: nat, end: nat, text: string)

  /**
   * The regex library: whether a pattern compiles, the named groups a
   * pattern captures in a subject (None when it does not match), and the
   * names of a pattern's groups in group order (None for an unnamed group).
   */
  datatype Engine = Engine(
    compiles: string -> bool,
    captures: (string, string) -> Option<map<string, Group>>,
    groupNames: string -> seq<Option<string>>)

  datatype PatternError = InvalidPattern(pattern: string)

  /** A route: its compiled pattern, parameter names and chunks, and its handler. */
  datatype Recognizer = Recognizer(pattern: string, names: seq<string>, chunks: seq<ParamChunk>, handler: HandlerId)

  /**
   * The inner pass of `Recognizer::parse_glob` over one placeholder whose `{`
   * is at `open`: whitespace is skipped, the first `:` switches from name to
   * type, and the pass stops after the first `}` or at the end of the template.
   */
  method ReadPlaceholder(t: string, open: nat) returns (name: string, ty: string, close: nat)
    requires open < |t| && t[open] == '{'
    ensures close == IndexOf(t, '}', open + 1)
    ensures name == NamePart(t[open + 1..close]) && ty == TypePart(t[open + 1..close])
  {
    name, ty := [], [];
    var isType := false;
    var i := open + 1;
    while i < |t|
      invariant open + 1 <= i <= |t|
      invariant forall m :: open < m < i ==> t[m] != '}'
      invariant name == NamePart(t[open + 1..i]) && ty == TypePart(t[open + 1..i])
      invariant isType == (':' in t[open + 1..i])
    {
      var c := t[i];
      if c == '}' {
        IndexOfUnique(t, '}', open + 1, i);
        return name, ty, i;
      }
      InnerStep(t[open + 1..i], c);
      assert t[open + 1..i + 1] == t[open + 1..i] + [c];
      i := i + 1;
      if IsSpace(c) {
        continue;
      } else if c == ':' && !isType {
        isType := true;
      } else if isType {
        ty := ty + [c];
      } else {
        name := name + [c];
      }
    }
    IndexOfUnique(t, '}', open + 1, |t|);
    close := |t|;
  }

  /**
   * What `Recognizer::parse_glob` emits for a closed placeholder: nothing for
   * `{}`, the literal `{name}` for a name that is not an identifier, else a
   * capture group around the registry's fragment, recording a named one.
   */
  method EmitPlaceholder(name: string, ty: string, types: Registry) returns (text: string, param: Option<string>)
    ensures Piece(text, param) == PieceOf(name, ty, types)
  {
    text, param := [], None;
    if |name| > 0 || |ty| > 0 {
      var key := if |ty| > 0 then ty else name;
      if |name| > 0 && !IsIdentifier(name) {
        text := "{" + name + "}";
      } else {
        var prefix: string;
        if |name| > 0 {
          prefix := "(?P<" + name + ">";
          param := Some(name);
        } else {
          prefix := "(";
        }
        text := prefix + (if key in types then types[key] else STRING_PATTERN) + ")";
      }
    }
  }

  /**
   * One placeholder of `Recognizer::parse_glob`, from its `{` at `open`: the
   * text it adds to the pattern, the parameter it records, and where the
   * outer pass resumes. An unterminated placeholder adds nothing and ends the pass.
   */
  method CompilePlaceholder(t: string, open: nat, types: Registry) returns (text: string, param: Option<string>, next: nat)
    requires open < |t| && t[open] == '{'
    ensures open < next <= |t|
    ensures ScanFrom(t, open, types).body == text + ScanFrom(t, next, types).body
    ensures ScanFrom(t, open, types).chunks ==
      (if param.Some? then [ParamChunk(param.value, open, next)] else []) + ScanFrom(t, next, types).chunks
  {
    var name, ty, close := ReadPlaceholder(t, open);
    if close == |t| {
      text, param, next := [], None, |t|;
      Unterminated(t, open, types);
    } else {
      text, param := EmitPlaceholder(name, ty, types);
      next := close + 1;
      assert Piece(text, param) == Placeholder(t[open + 1..close], types);
      ScanAtBrace(t, open, close, types);
    }
  }

  /**
   * The main pass of `Recognizer::parse_glob`: one left-to-right walk over
   * the template that copies literal bytes and compiles each placeholder,
   * collecting the names and chunks of the named ones.
   */
  method ScanTemplate(t: string, types: Registry) returns (pattern: string, names: seq<string>, chunks: seq<ParamChunk>)
    ensures pattern == "^" + ScanFrom(t, 0, types).body
    ensures chunks == ScanFrom(t, 0, types).chunks && names == Names(chunks)
  {
    ghost var full := ScanFrom(t, 0, types);
    names, chunks, pattern := [], [], "^";
    var i := 0;
    ghost var rest := full;
    while i < |t|
      invariant i <= |t| && rest == ScanFrom(t, i, types)
      invariant pattern + rest.body == "^" + full.body
      invariant chunks + rest.chunks == full.chunks
      invariant names == Names(chunks)
    {
      if t[i] == '{' {
        var text, param, next := CompilePlaceholder(t, i, types);
        ghost var rest' := ScanFrom(t, next, types);
        ghost var recorded := if param.Some? then [ParamChunk(param.value, i, next)] else [];
        Regroup(pattern, text, rest'.body, "^" + full.body);
        Regroup(chunks, recorded, rest'.chunks, full.chunks);
        if param.Some? {
          chunks := chunks + [ParamChunk(param.value, i, next)];
          names := names + [param.value];
        } else {
          assert chunks + recorded == chunks;
        }
        pattern := pattern + text;
        i, rest := next, rest';
      } else {
        ScanAtLiteral(t, i, types);
        ghost var rest' := ScanFrom(t, i + 1, types);
        Regroup(pattern, [t[i]], rest'.body, "^" + full.body);
        pattern := pattern + [t[i]];
        i, rest := i + 1, rest';
      }
    }
    assert rest == Scan([], []);
    assert pattern + [] == pattern && chunks + [] == chunks;
  }

  /**
   * `Recognizer::parse_glob`: the main pass, then the end anchor, then the
   * regex compilation of the pattern. Besides the names it returns each named
   * placeholder's chunk.
   */
  method ParseGlob(t: string, types: Registry, engine: Engine) returns (res: Result<Compiled, PatternError>)
    ensures var c := Compile(t, types);
      res == if engine.compiles(c.pattern) then Ok(c) else Err(InvalidPattern(c.pattern))
  {
    var pattern, names, chunks := ScanTemplate(t, types);
    pattern := pattern + (if pattern[|pattern| - 1] == '/' then "$" else "/?$");
    if engine.compiles(pattern) {
      res := Ok(Compiled(pattern, names, chunks));
    } else {
      res := Err(InvalidPattern(pattern));
    }
  }

  /**
   * `Recognizer::new`: compile the template against the registry given, or
   * against the default registry when there is none.
   */
  method NewRecognizer(t: string, types: Option<Registry>, handler: HandlerId, engine: Engine)
    returns (res: Result<Recognizer, PatternError>)
    ensures var c := Compile(t, types.GetOr(DefaultTypes));
      res == if engine.compiles(c.pattern) then Ok(Recognizer(c.pattern, c.names, c.chunks, handler))
             else Err(InvalidPattern(c.pattern))
  {
    var registry := if types.Some? then types.value else DefaultTypes;
    var compiled := ParseGlob(t, registry, engine);
    match compiled
    case Ok(c) => res := Ok(Recognizer(c.pattern, c.names, c.chunks, handler));
    case Err(e) => res := Err(e);
  }

  /** The parameters bound by a match: each recorded name whose group took part, with the group's text. */
  function Bind(names: seq<string>, caps: map<string, Group>): (p: Params)
    ensures forall n :: n in p <==> n in names && n in caps
    ensures forall n :: n in p ==> p[n] == caps[n].text
  {
    map n | n in names && n in caps :: caps[n].text
  }

  /** What recognizing `path` against one route yields. */
  function Match(r: Recognizer, path: string, engine: Engine): (m: Option<RouteMatch>)
    ensures m.Some? <==> engine.captures(r.pattern, path).Some?
    ensures m.Some? ==> m.value.handler == r.handler
  {
    match engine.captures(r.pattern, path)
    case None => None
    case Some(caps) => Some(RouteMatch(r.handler, Bind(r.names, caps)))
  }

  /**
   * `recognize` on one route: when the pattern matches, every recorded name
   * whose group took part is bound to the text that group captured; names
   * of groups that did not take part stay unbound.
   */
  method Recognize(r: Recognizer, path: string, engine: Engine) returns (m: Option<RouteMatch>)
    ensures m == Match(r, path, engine)
    ensures m.Some? ==> forall n :: n in m.value.params <==> n in r.names && n in engine.captures(r.pattern, path).value
  {
    var caps := engine.captures(r.pattern, path);
    if caps.None? {
      return None;
    }
    var params: Params := map[];
    for k := 0 to |r.names|
      invariant params == Bind(r.names[..k], caps.value)
    {
      var name := r.names[k];
      assert r.names[..k + 1] == r.names[..k] + [name];
      if name in caps.value {
        params := params[name := caps.value[name].text];
      }
    }
    assert r.names[..|r.names|] == r.names;
    m := Some(RouteMatch(r.handler, params));
  }

  /** The first route of the list that matches, in registration order. */
  function FirstMatch(recs: seq<Recognizer>, path: string, engine: Engine): Option<RouteMatch>
  {
    if recs == [] then None
    else if Match(recs[0], path, engine).Some? then Match(recs[0], path, engine)
    else FirstMatch(recs[1..], path, engine)
  }

  /**
   * The list matches exactly when one of its routes does, and then yields the
   * match of the earliest matching route.
   */
  lemma {:induction false} FirstMatchSpec(recs: seq<Recognizer>, path: string, engine: Engine)
    ensures FirstMatch(recs, path, engine).None? <==>
      forall i :: 0 <= i < |recs| ==> Match(recs[i], path, engine).None?
    ensures FirstMatch(recs, path, engine).Some? ==>
      exists i :: 0 <= i < |recs| && FirstMatch(recs, path, engine) == Match(recs[i], path, engine) &&
        forall j :: 0 <= j < i ==> Match(recs[j], path, engine).None?
  {
    if recs != [] && Match(recs[0], path, engine).None? {
      FirstMatchSpec(recs[1..], path, engine);
      if FirstMatch(recs, path, engine).Some? {
        var i :| 0 <= i < |recs| - 1 && FirstMatch(recs[1..], path, engine) == Match(recs[1..][i], path, engine) &&
          forall j :: 0 <= j < i ==> Match(recs[1..][j], path, engine).None?;
        assert forall j :: 0 <= j < i + 1 ==> Match(recs[j], path, engine).None? by {
          forall j | 0 <= j < i + 1 ensures Match(recs[j], path, engine).None? {
            if j > 0 {
              assert recs[j] == recs[1..][j - 1];
            }
          }
        }
        assert recs[i + 1] == recs[1..][i];
      } else {
        forall i | 0 <= i < |recs| ensures Match(recs[i], path, engine).None? {
          if i > 0 {
            assert recs[i] == recs[1..][i - 1];
          }
        }
      }
    } else if recs != [] {
      assert FirstMatch(recs, path, engine) == Match(recs[0], path, engine);
    }
  }

  /**
   * Routes registered later never take a path from routes registered
   * earlier: they are consulted only when no earlier route matches.
   */
  lemma {:induction false} FirstMatchAppend(a: seq<Recognizer>, b: seq<Recognizer>, path: string, engine: Engine)
    ensures FirstMatch(a + b, path, engine) ==
      if FirstMatch(a, path, engine).Some? then FirstMatch(a, path, engine) else FirstMatch(b, path, engine)
    decreases |a|
  {
    if a == [] {
      assert a + b == b;
    } else {
      assert (a + b)[0] == a[0];
      assert (a + b)[1..] == a[1..] + b;
      FirstMatchAppend(a[1..], b, path, engine);
    }
  }

  /** `recognize` on a list of routes: the first match, in list order. */
  method FirstMatchIn(recs: seq<Recognizer>, path: string, engine: Engine) returns (m: Option<RouteMatch>)
    ensures m == FirstMatch(recs, path, engine)
  {
    for k := 0 to |recs|
      invariant FirstMatch(recs[k..], path, engine) == FirstMatch(recs, path, engine)
    {
      assert recs[k..][0] == recs[k] && recs[k..][1..] == recs[k + 1..];
      m := Recognize(recs[k], path, engine);
      if m.Some? {
        return m;
      }
    }
    m := None;
  }
}
