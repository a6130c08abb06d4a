/** `JSOMap.query`: a brace-wrapped query is a macro call or a pipeline of
    stages, a query with brackets is a path, anything else is returned as it
    is. The macro-syntax tests and the macro registry belong to `JSOMacro`,
    which is not part of this model; they are parameters here. */
module MacroQuery {
  import opened JsValue
  import opened PathQuery

  /** A registered macro, called as `macro(input, queryStr)`; it may throw. */
  type Macro = (Value, string) -> Result<Value>

  /** What `query` takes from `JSOMacro`. */
  datatype Env = Env(
    isMacro: string -> bool,       // JSOMacro.RX.test
    isMacroDef: string -> bool,    // JSOMacro.MacroDefRX.test
    macroName: string -> string,   // s.split(JSOMacro.MacroNameRX)[0]
    registry: map<string, Macro>)  // the names JSOMacro.getMacro resolves

  /** A `substring` argument brought into `0..len`. */
  function Clamp(x: int, len: nat): (r: nat)
    ensures r <= len
    ensures 0 <= x <= len ==> r == x
    ensures x < 0 ==> r == 0
    ensures x > len ==> r == len
  {
    if x < 0 then 0 else if x > len then len else x
  }

  /** `s.substring(start, end)`: both ends clamped to the string, swapped
      when the start lies after the end. */
  function Substring(s: string, start: int, end: int): (r: string)
    ensures forall i :: 0 <= i < |r| ==> r[i] in s
    ensures 0 <= start <= end <= |s| ==> r == s[start..end]
    ensures 0 <= end <= start <= |s| ==> r == s[end..start]
    ensures start < 0 && 0 <= end <= |s| ==> r == s[..end]
    ensures end > |s| && 0 <= start <= |s| ==> r == s[start..]
    ensures start <= 0 && end >= |s| ==> r == s
    ensures end <= 0 && start >= |s| ==> r == s
  {
    var a, b := Clamp(start, |s|), Clamp(end, |s|);
    if a <= b then s[a..b] else s[b..a]
  }

  /** `substring` does not care which end comes first. */
  lemma SubstringSwap(s: string, start: int, end: int)
    ensures Substring(s, start, end) == Substring(s, end, start)
  {
  }

  /** `queryStr.substring(1, queryStr.length - 1)`: the text inside the
      braces; a one-character query is its own body, because the ends swap. */
  function MacroBody(q: string): (body: string)
    ensures forall i :: 0 <= i < |body| ==> body[i] in q
    ensures |q| >= 2 ==> body == q[1..|q| - 1]
    ensures |q| == 1 ==> body == q
    ensures q == [] ==> body == []
  {
    Substring(q, 1, |q| - 1)
  }

  /** The pieces of `s` between occurrences of `sep`. */
  function SplitOn(s: string, sep: char): (pieces: seq<string>)
    ensures |pieces| >= 1
    ensures forall i :: 0 <= i < |pieces| ==> sep !in pieces[i]
    ensures |pieces| >= 2 <==> sep in s
  {
    if s == [] then [""]
    else
      var rest := SplitOn(s[1..], sep);
      assert sep in s <==> s[0] == sep || sep in s[1..] by {
        assert s == [s[0]] + s[1..];
      }
      if s[0] == sep then [""] + rest
      else [[s[0]] + rest[0]] + rest[1..]
  }

  /** The pieces put back together with `sep` between them. */
  function Join(pieces: seq<string>, sep: char): string
    requires |pieces| >= 1
  {
    if |pieces| == 1 then pieces[0] else pieces[0] + [sep] + Join(pieces[1..], sep)
  }

  /** `JSOMacro.pipeMacro(body)`, taken as a split on every `|` that yields
      an array of stages when there are at least two, and the body otherwise. */
  function PipeMacro(body: string): (r: Option<seq<string>>)
    ensures r.Some? <==> '|' in body
    ensures r.Some? ==> |r.value| >= 2 && forall i :: 0 <= i < |r.value| ==> '|' !in r.value[i]
    ensures r.Some? ==> Join(r.value, '|') == body
  {
    var stages := SplitOn(body, '|');
    SplitJoin(body, '|');
    if |stages| >= 2 then Some(stages) else None
  }

  /** Line 41: a stage whose macro name passes the macro-definition test is
      queried again wrapped in braces; every other stage is queried as it is
      (the two remaining branches, lines 43-47, do the same). */
  function StageQuery(env: Env, stage: string): string
  {
    if env.isMacroDef(env.macroName(stage) + "()") then "{" + stage + "}" else stage
  }

  /** Line 52: the macro registered under `name`, called with the input and
      the whole query string. */
  function CallMacro(env: Env, name: string, input: Value, q: string): Result<Value>
  {
    if name in env.registry then env.registry[name](input, q) else Err(MacroNotFound(name))
  }

  /** Termination measure: stages never contain `|`, so a re-queried stage
      can never be a pipeline again. */
  function PipeRank(q: string): nat { if '|' in q then 1 else 0 }

  /** What `query(input, q)` returns or throws. */
  function Eval(env: Env, input: Value, q: string): Result<Value>
    decreases PipeRank(q), 1
  {
    if env.isMacro(q) then
      var body := MacroBody(q);
      match PipeMacro(body)
      case Some(stages) =>
        assert '|' in q;
        RunPipe(env, input, stages)
      case None => CallMacro(env, body, input, q)
    else if HasBracket(q) then Walk(input, Segments(q))
    else Ok(Str(q))
  }

  /** The stages applied in order, each to the result of the one before,
      starting from `v`. */
  function RunPipe(env: Env, v: Value, stages: seq<string>): Result<Value>
    requires forall i :: 0 <= i < |stages| ==> '|' !in stages[i]
    decreases 0, |stages| + 1
  {
    if stages == [] then Ok(v)
    else
      var w :- Eval(env, v, StageQuery(env, stages[0]));
      RunPipe(env, w, stages[1..])
  }

  /** `JSOMap.query` (lines 29-92). */
  method Query(env: Env, input: Value, q: string) returns (r: Result<Value>)
    ensures r == Eval(env, input, q)
    decreases PipeRank(q), 1
  {
    if env.isMacro(q) {
      var macro := MacroBody(q);
      var pipe := PipeMacro(macro);
      if pipe.Some? {
        assert '|' in q;
        r := Pipeline(env, input, pipe.value);
      } else {
        r := CallMacro(env, macro, input, q);
      }
    } else if HasBracket(q) {
      r := WalkPath(input, q);
    } else {
      r := Ok(Str(q));
    }
  }

  /** The pipeline's `forEach` (lines 40-48): the running `result` is fed to
      each stage after the first, which gets the input. */
  method Pipeline(env: Env, input: Value, stages: seq<string>) returns (r: Result<Value>)
    requires |stages| >= 2 && forall i :: 0 <= i < |stages| ==> '|' !in stages[i]
    ensures r == RunPipe(env, input, stages)
    decreases 0, 3
  {
    ghost var spec := RunPipe(env, input, stages);
    var result := Sentinel;
    var idx := 0;
    while idx < |stages|
      invariant 0 <= idx <= |stages|
      invariant spec == RunPipe(env, if idx == 0 then input else result, stages[idx..])
    {
      var arg := if idx == 0 then input else result;
      var out := RunStage(env, arg, stages[idx]);
      assert stages[idx..][0] == stages[idx];
      if out.Err? {
        return Err(out.error);
      }
      result := out.value;
      idx := idx + 1;
      assert stages[idx - 1..][1..] == stages[idx..];
    }
    r := Ok(result);
  }

  /** One stage of the pipeline (lines 41-47), queried on `arg`. */
  method RunStage(env: Env, arg: Value, qry: string) returns (out: Result<Value>)
    requires '|' !in qry
    ensures out == Eval(env, arg, StageQuery(env, qry))
    decreases 0, 2
  {
    var sub: string;
    if env.isMacroDef(env.macroName(qry) + "()") {
      sub := "{" + qry + "}";
    } else if HasBracket(qry) {
      sub := qry;
    } else {
      sub := qry;
    }
    assert '|' !in sub;
    out := Query(env, arg, sub);
  }

  // ---------------------------------------------------------------------
  // The pipe splitter.

  /** Joining the pieces gives back the text that was split. */
  lemma {:induction false} SplitJoin(s: string, sep: char)
    ensures Join(SplitOn(s, sep), sep) == s
  {
    if s != [] {
      var rest := SplitOn(s[1..], sep);
      SplitJoin(s[1..], sep);
      if s[0] == sep {
        assert SplitOn(s, sep) == [""] + rest;
        assert ([""] + rest)[1..] == rest;
      } else if |rest| == 1 {
        assert SplitOn(s, sep) == [[s[0]] + rest[0]];
      } else {
        var ps := SplitOn(s, sep);
        assert ps == [[s[0]] + rest[0]] + rest[1..];
        assert ps[1..] == rest[1..];
        assert Join(rest, sep) == rest[0] + [sep] + Join(rest[1..], sep);
      }
    }
  }

  /** Splitting joined pieces that contain no separator gives the pieces back. */
  lemma {:induction false} JoinSplit(pieces: seq<string>, sep: char)
    requires |pieces| >= 1
    requires forall i :: 0 <= i < |pieces| ==> sep !in pieces[i]
    ensures SplitOn(Join(pieces, sep), sep) == pieces
  {
    if |pieces| == 1 {
      NoSeparator(pieces[0], sep);
    } else {
      JoinSplit(pieces[1..], sep);
      SeparatedWord(pieces[0], Join(pieces[1..], sep), sep);
    }
  }

  lemma {:induction false} NoSeparator(w: string, sep: char)
    requires sep !in w
    ensures SplitOn(w, sep) == [w]
  {
    if w != [] {
      assert sep !in w[1..] by {
        forall c | c in w[1..] ensures c in w { }
      }
      NoSeparator(w[1..], sep);
      assert SplitOn(w, sep) == [[w[0]] + w[1..]];
      assert [w[0]] + w[1..] == w;
    }
  }

  lemma {:induction false} SeparatedWord(w: string, rest: string, sep: char)
    requires sep !in w
    ensures SplitOn(w + [sep] + rest, sep) == [w] + SplitOn(rest, sep)
    decreases |w|
  {
    var s := w + [sep] + rest;
    var tail := SplitOn(rest, sep);
    if w == [] {
      assert s == [sep] + rest;
      assert s[1..] == rest;
      assert SplitOn(s, sep) == [""] + SplitOn(s[1..], sep);
    } else {
      var w' := w[1..];
      assert s[0] == w[0];
      assert s[1..] == w' + [sep] + rest;
      assert sep !in w' by {
        forall c | c in w' ensures c in w { }
      }
      SeparatedWord(w', rest, sep);
      var inner := SplitOn(s[1..], sep);
      assert inner == [w'] + tail;
      assert inner[0] == w' && inner[1..] == tail;
      assert SplitOn(s, sep) == [[w[0]] + inner[0]] + inner[1..];
      assert [w[0]] + w' == w;
    }
  }

  // ---------------------------------------------------------------------
  // Properties of query.

  /** A query that is neither a macro nor contains a bracket comes back verbatim. */
  lemma LiteralIsVerbatim(env: Env, input: Value, q: string)
    requires !env.isMacro(q) && !HasBracket(q)
    ensures Eval(env, input, q) == Ok(Str(q))
  {
  }

  /** A path query written `[k0][k1]...` walks exactly the coerced keys. */
  lemma PathQueryWalksKeys(env: Env, input: Value, keys: seq<string>)
    requires keys != [] && PlainKeys(keys)
    requires !env.isMacro(Render(keys))
    ensures Eval(env, input, Render(keys)) == Walk(input, seq(|keys|, i requires 0 <= i < |keys| => Coerce(keys[i])))
  {
    TokenizeRendered(keys);
    assert '[' in Render(keys);
  }

  /** Paths made only of brackets, such as `[]`, yield the sentinel. */
  lemma BracketsOnlyIsSentinel(env: Env, input: Value, q: string)
    requires q != [] && forall i :: 0 <= i < |q| ==> IsBracket(q[i])
    requires !env.isMacro(q)
    ensures Eval(env, input, q) == Ok(Sentinel)
  {
    OnlyBracketsNoParts(q);
    assert IsBracket(q[0]) && q[0] in q;
  }

  /** `query(o, "[k]")` is `o[k]` for a key present in an object. */
  lemma ObjectKeyQuery(env: Env, fields: map<string, Value>, k: string)
    requires k in fields && k != "" && !HasBracket(k) && !IsDigit(k[0])
    requires !env.isMacro("[" + k + "]")
    ensures Eval(env, Obj(fields), "[" + k + "]") == Ok(fields[k])
  {
    assert Render([k]) == "[" + k + "]";
    PathQueryWalksKeys(env, Obj(fields), [k]);
  }

  /** A digit-led key is read as a number: `query(o, "[k]")` then reads the
      property named by the numeral of `k`'s leading digits, not `k` itself. */
  lemma ObjectDigitKeyQuery(env: Env, fields: map<string, Value>, k: string)
    requires k != "" && !HasBracket(k) && IsDigit(k[0])
    requires !env.isMacro("[" + k + "]")
    ensures Eval(env, Obj(fields), "[" + k + "]") ==
      Ok(var name := NatToString(DecimalValue(LeadingDigits(k)));
         if name in fields then fields[name] else Undef)
  {
    assert Render([k]) == "[" + k + "]";
    PathQueryWalksKeys(env, Obj(fields), [k]);
    var seg := Index(DecimalValue(LeadingDigits(k)));
    assert Coerce(k) == seg;
    assert seq(1, i requires 0 <= i < 1 => Coerce([k][i])) == [seg];
    assert Walk(Obj(fields), [seg]) == Get(Obj(fields), seg);
  }

  /** So a digit-led key that is not its own numeral, such as `"01"` or
      `"1a"`, is never found: `query({"01": v}, "[01]")` is `undefined`. */
  lemma DigitKeyMissed(env: Env, k: string, v: Value)
    requires k != "" && !HasBracket(k) && IsDigit(k[0])
    requires !env.isMacro("[" + k + "]")
    requires NatToString(DecimalValue(LeadingDigits(k))) != k
    ensures Eval(env, Obj(map[k := v]), "[" + k + "]") == Ok(Undef)
  {
    ObjectDigitKeyQuery(env, map[k := v], k);
  }

  /** `"01"` is such a key: the property read is `"1"`. */
  lemma LeadingZeroNumeral()
    ensures NatToString(DecimalValue(LeadingDigits("01"))) == "1"
  {
    assert LeadingDigits("01") == "01" by {
      assert "01"[1..] == "1" && "1"[1..] == "";
    }
    assert DecimalValue("01") == 1 by {
      assert "01"[..1] == "0" && "0"[..0] == "";
    }
  }

  /** `query(v, "[k1][k2]")` reads `k1` of `v`, then `k2` of that, with a
      broadcast when it is an array. */
  lemma TwoKeyQuery(env: Env, input: Value, k1: string, k2: string)
    requires k1 != "" && !HasBracket(k1) && !IsDigit(k1[0])
    requires k2 != "" && !HasBracket(k2) && !IsDigit(k2[0])
    requires !env.isMacro("[" + k1 + "][" + k2 + "]")
    ensures Eval(env, input, "[" + k1 + "][" + k2 + "]") == Walk(input, [Key(k1), Key(k2)])
  {
    var keys := [k1, k2];
    assert keys[1..] == [k2] && keys[1..][1..] == [];
    assert Render([k2]) == "[" + k2 + "]" + Render([]);
    assert Render(keys) == "[" + k1 + "]" + ("[" + k2 + "]" + "");
    assert "[" + k1 + "]" + ("[" + k2 + "]" + "") == "[" + k1 + "][" + k2 + "]";
    PathQueryWalksKeys(env, input, keys);
    assert seq(|keys|, i requires 0 <= i < |keys| => Coerce(keys[i])) == [Key(k1), Key(k2)];
  }

  /** The first segment reads the input itself, even when it is an array:
      `query(arr, "[k]")` asks the array for property `k` and does not
      broadcast, so it is `undefined` for any key but `length`. */
  lemma ArrayInputKeyQuery(env: Env, elems: seq<Value>, k: string)
    requires k != "" && !HasBracket(k) && !IsDigit(k[0]) && k != "length"
    requires !env.isMacro("[" + k + "]")
    ensures Eval(env, Arr(elems), "[" + k + "]") == Ok(Undef)
  {
    assert Render([k]) == "[" + k + "]";
    PathQueryWalksKeys(env, Arr(elems), [k]);
  }

  /** A brace-wrapped name without `|` calls the macro registered under that
      name with the input and the full query; an unknown name throws. */
  lemma MacroCallDispatch(env: Env, input: Value, name: string)
    requires '|' !in name
    requires env.isMacro("{" + name + "}")
    ensures name in env.registry ==>
      Eval(env, input, "{" + name + "}") == env.registry[name](input, "{" + name + "}")
    ensures name !in env.registry ==>
      Eval(env, input, "{" + name + "}") == Err(MacroNotFound(name))
  {
    var q := "{" + name + "}";
    assert q[1..|q| - 1] == name;
  }

  /** A brace-wrapped pipeline runs its stages in order, the first on the
      input and each later one on the previous stage's result. */
  lemma PipelineRunsStages(env: Env, input: Value, stages: seq<string>)
    requires |stages| >= 2 && forall i :: 0 <= i < |stages| ==> '|' !in stages[i]
    requires env.isMacro("{" + Join(stages, '|') + "}")
    ensures Eval(env, input, "{" + Join(stages, '|') + "}") == RunPipe(env, input, stages)
  {
    var body := Join(stages, '|');
    var q := "{" + body + "}";
    assert q[1..|q| - 1] == body;
    JoinSplit(stages, '|');
  }

  /** The pipeline is a left fold: its result is the last stage's result on
      what the stages before it produced. */
  lemma {:induction false} RunPipeSnoc(env: Env, v: Value, stages: seq<string>, last: string)
    requires forall i :: 0 <= i < |stages| ==> '|' !in stages[i]
    requires '|' !in last
    ensures RunPipe(env, v, stages + [last]) ==
      (var w :- RunPipe(env, v, stages); Eval(env, w, StageQuery(env, last)))
    decreases stages
  {
    if stages == [] {
      assert [] + [last] == [last];
    } else {
      assert (stages + [last])[1..] == stages[1..] + [last];
      var w := Eval(env, v, StageQuery(env, stages[0]));
      if w.Ok? {
        RunPipeSnoc(env, w.value, stages[1..], last);
      }
    }
  }

  /** `query(x, "{A|B}")` is stage B applied to what stage A made of `x`. */
  lemma TwoStagePipeline(env: Env, input: Value, a: string, b: string)
    requires '|' !in a && '|' !in b
    requires env.isMacro("{" + a + "|" + b + "}")
    ensures Eval(env, input, "{" + a + "|" + b + "}") ==
      (var x :- Eval(env, input, StageQuery(env, a)); Eval(env, x, StageQuery(env, b)))
  {
    assert [a, b][1..] == [b];
    assert Join([a, b], '|') == a + "|" + b;
    assert "{" + Join([a, b], '|') + "}" == "{" + a + "|" + b + "}";
    PipelineRunsStages(env, input, [a, b]);
    var x := Eval(env, input, StageQuery(env, a));
    if x.Ok? {
      assert RunPipe(env, input, [a, b]) == RunPipe(env, x.value, [b]);
      var y := Eval(env, x.value, StageQuery(env, b));
      assert [b][1..] == [];
      if y.Ok? {
        assert RunPipe(env, x.value, [b]) == RunPipe(env, y.value, []);
      }
    }
  }

  /** A path stage `[key]` that is not a macro name reads `key` of an object. */
  lemma PathStage(env: Env, key: string, v: Value)
    requires key != "" && !HasBracket(key) && !IsDigit(key[0]) && '|' !in key
    requires !env.isMacro("[" + key + "]")
    requires !env.isMacroDef(env.macroName("[" + key + "]") + "()")
    ensures '|' !in "[" + key + "]"
    ensures Eval(env, Obj(map[key := v]), StageQuery(env, "[" + key + "]")) == Ok(v)
  {
    ObjectKeyQuery(env, map[key := v], key);
  }

  /** The pipeline text `{[key]|name}` as its two stages joined by a pipe. */
  lemma PipelineText(key: string, name: string)
    ensures "{[" + key + "]|" + name + "}" == "{" + ("[" + key + "]") + "|" + name + "}"
  {
  }

  /** A path stage piped into a macro, as in `{[text]|UpperCase()}` on
      `{text: "hi"}`: the path stage reads the property, and the macro stage
      is re-queried as `{UpperCase()}`, so the macro receives that text, not
      the whole pipeline, as its query. */
  lemma PathThenMacro(env: Env, key: string, v: Value, name: string)
    requires key != "" && !HasBracket(key) && !IsDigit(key[0]) && '|' !in key
    requires '|' !in name
    requires env.isMacro("{[" + key + "]|" + name + "}") && env.isMacro("{" + name + "}")
    requires !env.isMacro("[" + key + "]")
    requires !env.isMacroDef(env.macroName("[" + key + "]") + "()")
    requires env.isMacroDef(env.macroName(name) + "()")
    requires name in env.registry
    ensures Eval(env, Obj(map[key := v]), "{[" + key + "]|" + name + "}") ==
      env.registry[name](v, "{" + name + "}")
  {
    var path := "[" + key + "]";
    var input := Obj(map[key := v]);
    PipelineText(key, name);
    PathStage(env, key, v);
    assert StageQuery(env, name) == "{" + name + "}";
    MacroCallDispatch(env, v, name);
    TwoStagePipeline(env, input, path, name);
  }
}
