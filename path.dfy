/** The bracket-path branch of `JSOMap.query`: a query such as `[a][0][b]`
    is split into segments, digit-led segments become numbers, and the
    segments are applied one after another to a running result, broadcasting
    over arrays on the way. */
module PathQuery {
  import opened JsValue

  predicate IsBracket(c: char) { c == '[' || c == ']' }

  /** `queryRx.test(s)` for `queryRx = /(?:\[|]\[|])/`: some bracket occurs in `s`. */
  predicate HasBracket(s: string) { '[' in s || ']' in s }

  /** Length of the delimiter the regular expression matches at the front of
      `s`, trying its alternatives `[`, `][`, `]` in that order (0: none). */
  function DelimiterAt(s: string): (d: nat)
    requires s != []
    ensures d <= |s| && d <= 2
    ensures d == 0 <==> !IsBracket(s[0])
    ensures d == 2 <==> s[0] == ']' && |s| > 1 && s[1] == '['
  {
    if s[0] == '[' then 1
    else if s[0] == ']' then (if |s| > 1 && s[1] == '[' then 2 else 1)
    else 0
  }

  /** `s` with every bracket removed. */
  function Strip(s: string): (r: string)
    ensures !HasBracket(r)
  {
    if s == [] then []
    else (if IsBracket(s[0]) then [] else [s[0]]) + Strip(s[1..])
  }

  /** The pieces written one after another. */
  function Concat(pieces: seq<string>): string
  {
    if pieces == [] then [] else pieces[0] + Concat(pieces[1..])
  }

  /** `s.split(queryRx)`: the pieces between delimiter matches, empty ones
      included. */
  function SplitPath(s: string): (pieces: seq<string>)
    ensures |pieces| >= 1
    ensures forall i :: 0 <= i < |pieces| ==> !HasBracket(pieces[i])
    ensures s == [] || IsBracket(s[0]) ==> pieces[0] == ""
    decreases |s|
  {
    if s == [] then [""]
    else
      var d := DelimiterAt(s);
      if d > 0 then [""] + SplitPath(s[d..])
      else
        var rest := SplitPath(s[1..]);
        [[s[0]] + rest[0]] + rest[1..]
  }

  /** Together the pieces are `s` without its brackets: the split loses
      nothing but the delimiters. */
  lemma {:induction false} SplitPathJoins(s: string)
    ensures Concat(SplitPath(s)) == Strip(s)
    decreases |s|
  {
    if s != [] {
      var d := DelimiterAt(s);
      if d > 0 {
        SplitPathJoins(s[d..]);
        StripDelimiter(s);
        assert ([""] + SplitPath(s[d..]))[1..] == SplitPath(s[d..]);
      } else {
        SplitPathJoins(s[1..]);
        var rest := SplitPath(s[1..]);
        assert ([[s[0]] + rest[0]] + rest[1..])[1..] == rest[1..];
        assert Concat(rest) == rest[0] + Concat(rest[1..]);
      }
    }
  }

  /** A delimiter contributes nothing to the stripped string. */
  lemma StripDelimiter(s: string)
    requires s != [] && DelimiterAt(s) > 0
    ensures Strip(s) == Strip(s[DelimiterAt(s)..])
  {
    if DelimiterAt(s) == 2 {
      assert s[1..][1..] == s[2..];
    }
  }

  /** `pieces.filter(part => part !== '')`: the non-empty pieces, in order. */
  function NonEmpty(pieces: seq<string>): (r: seq<string>)
    ensures |r| <= |pieces|
    ensures forall i :: 0 <= i < |r| ==> r[i] != "" && r[i] in pieces
  {
    if pieces == [] then []
    else (if pieces[0] == "" then [] else [pieces[0]]) + NonEmpty(pieces[1..])
  }

  /** The filter keeps every non-empty piece and drops only the empty ones. */
  lemma {:induction false} NonEmptyMembers(pieces: seq<string>, p: string)
    ensures p in NonEmpty(pieces) <==> p != "" && p in pieces
    decreases |pieces|
  {
    if pieces != [] {
      NonEmptyMembers(pieces[1..], p);
      assert pieces == [pieces[0]] + pieces[1..];
    }
  }

  /** The longest bracket-free prefix of `s`. */
  function Run(s: string): (w: string)
    ensures w <= s && !HasBracket(w)
    ensures |w| < |s| ==> IsBracket(s[|w|])
    ensures s != [] && !IsBracket(s[0]) ==> |w| >= 1
  {
    if s != [] && !IsBracket(s[0]) then [s[0]] + Run(s[1..]) else []
  }

  /** An independent tokenizer: the maximal bracket-free runs of `s`, in order. */
  function Words(s: string): (ws: seq<string>)
    ensures forall i :: 0 <= i < |ws| ==> ws[i] != "" && !HasBracket(ws[i])
    decreases |s|
  {
    if s == [] then []
    else if IsBracket(s[0]) then Words(s[1..])
    else
      var w := Run(s);
      [w] + Words(s[|w|..])
  }

  /** The non-empty pieces of a path query, before numeric coercion: exactly
      its maximal bracket-free runs, so which of the three delimiters matched
      does not matter. */
  function PathParts(q: string): (parts: seq<string>)
    ensures forall i :: 0 <= i < |parts| ==> parts[i] != "" && !HasBracket(parts[i])
    ensures parts == Words(q)
  {
    SplitFilterIsWords(q);
    NonEmpty(SplitPath(q))
  }

  /** `/[0-9]+/.test(part)`: the pattern is unanchored, so any digit will do. */
  predicate HasDigit(p: string) { exists i :: 0 <= i < |p| && IsDigit(p[i]) }

  /** The longest prefix of `p` made of decimal digits. */
  function LeadingDigits(p: string): (ds: string)
    ensures AllDigits(ds) && ds <= p
    ensures |ds| < |p| ==> !IsDigit(p[|ds|])
  {
    if p != [] && IsDigit(p[0]) then [p[0]] + LeadingDigits(p[1..]) else []
  }

  /** `parseFloat(part)` on natural-number prefixes: the value of the leading
      digits, or None (NaN) when the part does not start with a digit. */
  function ParseNumber(p: string): Option<nat>
  {
    if p != [] && IsDigit(p[0]) then Some(DecimalValue(LeadingDigits(p))) else None
  }

  /** Lines 62-67: a part that contains a digit and parses as a number becomes
      that number; every other part stays a property name. So "12" is 12,
      "1a" is 1 and "a1" is the key "a1". */
  function Coerce(p: string): (seg: Segment)
    ensures seg.Index? <==> p != [] && IsDigit(p[0])
    ensures seg.Index? ==> seg.i == DecimalValue(LeadingDigits(p))
    ensures seg.Key? ==> seg.k == p
  {
    if HasDigit(p) then
      match ParseNumber(p)
      case None => Key(p)
      case Some(n) => Index(n)
    else Key(p)
  }

  /** The segments a path query walks, in order. */
  function Segments(q: string): (segs: seq<Segment>)
    ensures |segs| == |PathParts(q)|
    ensures forall i :: 0 <= i < |segs| ==> segs[i] == Coerce(PathParts(q)[i])
  {
    var parts := PathParts(q);
    seq(|parts|, i requires 0 <= i < |parts| => Coerce(parts[i]))
  }

  /** `elems.map(res => res[k])`: throws when some element is undefined or
      null, and otherwise keeps the length and order of `elems`, undefined
      entries included. */
  function Broadcast(elems: seq<Value>, k: string): (r: Result<seq<Value>>)
    ensures r.Ok? <==> forall i :: 0 <= i < |elems| ==> !elems[i].Undef? && !elems[i].Null?
    ensures r.Err? ==> r.error == TypeError
    ensures r.Ok? ==> |r.value| == |elems|
    ensures r.Ok? ==> forall i :: 0 <= i < |elems| ==> Get(elems[i], Key(k)) == Ok(r.value[i])
  {
    if elems == [] then Ok([])
    else
      var head :- Get(elems[0], Key(k));
      var tail :- Broadcast(elems[1..], k);
      Ok([head] + tail)
  }

  /** A segment after the first applied to the running result (lines 71-83):
      on an array a number selects an element and a key broadcasts; on
      anything else the segment is read; `undefined` becomes the sentinel
      except inside a broadcast. */
  function Step(result: Value, seg: Segment): Result<Value>
  {
    if result.Arr? && seg.Key? then
      var es :- Broadcast(result.elems, seg.k);
      Ok(Arr(es))
    else
      var v :- Get(result, seg);
      Ok(OrSentinel(v))
  }

  /** The later segments applied in order, starting from `v`. */
  function WalkFrom(v: Value, segs: seq<Segment>): Result<Value>
    decreases segs
  {
    if segs == [] then Ok(v)
    else
      var w :- Step(v, segs[0]);
      WalkFrom(w, segs[1..])
  }

  /** Lines 59-84: the first segment reads the input itself, with no sentinel
      substitution; a path without segments yields the sentinel. */
  function Walk(input: Value, segs: seq<Segment>): Result<Value>
  {
    if segs == [] then Ok(Sentinel)
    else
      var first :- Get(input, segs[0]);
      WalkFrom(first, segs[1..])
  }

  /** The path branch of `query` (lines 57-84) with its `forEach` over the
      filtered parts and the running `result`. */
  method WalkPath(input: Value, q: string) returns (r: Result<Value>)
    ensures r == Walk(input, Segments(q))
  {
    var parts := PathParts(q);
    ghost var segs := Segments(q);
    var result := Sentinel;
    var index := 0;
    while index < |parts|
      invariant 0 <= index <= |parts|
      invariant index == 0 ==> result == Sentinel
      invariant index > 0 ==> Walk(input, segs) == WalkFrom(result, segs[index..])
    {
      var part := Coerce(parts[index]);
      assert part == segs[index];
      var next: Result<Value>;
      if result == Sentinel && index == 0 {
        next := Get(input, part);
      } else {
        next := Advance(result, part);
      }
      if next.Err? {
        return next;
      }
      result := next.value;
      index := index + 1;
      assert segs[index - 1..][1..] == segs[index..];
    }
    r := Ok(result);
  }

  /** One later segment (lines 71-83): on an array a number selects an
      element and a key maps over the elements; anything else is read. */
  method Advance(result: Value, part: Segment) returns (r: Result<Value>)
    ensures r == Step(result, part)
  {
    if result.Arr? {
      if part.Index? {
        r := Ok(OrSentinel(Get(result, part).value));
      } else {
        var es := Broadcast(result.elems, part.k);
        if es.Err? {
          return Err(es.error);
        }
        r := Ok(Arr(es.value));
      }
    } else {
      var v := Get(result, part);
      if v.Err? {
        return v;
      }
      r := Ok(OrSentinel(v.value));
    }
  }

  // ---------------------------------------------------------------------
  // The tokenizer against the path grammar `('[' segment ']')+`.

  /** The canonical path text for a list of keys: `[k0][k1]...`. */
  function Render(keys: seq<string>): string
  {
    if keys == [] then "" else "[" + keys[0] + "]" + Render(keys[1..])
  }

  predicate PlainKeys(keys: seq<string>)
  {
    forall i :: 0 <= i < |keys| ==> keys[i] != "" && !HasBracket(keys[i])
  }

  lemma {:induction false} NonEmptyAppend(a: seq<string>, b: seq<string>)
    ensures NonEmpty(a + b) == NonEmpty(a) + NonEmpty(b)
  {
    if a == [] {
      assert a + b == b;
    } else {
      assert (a + b)[0] == a[0];
      assert (a + b)[1..] == a[1..] + b;
      NonEmptyAppend(a[1..], b);
    }
  }

  /** A bracket in front of `s` only adds an empty piece. */
  lemma BracketPrefix(c: char, s: string)
    requires IsBracket(c)
    ensures NonEmpty(SplitPath([c] + s)) == NonEmpty(SplitPath(s))
  {
    var cs := [c] + s;
    assert cs[1..] == s;
    if c == ']' && s != [] && s[0] == '[' {
      assert cs[2..] == s[1..];
      assert SplitPath(cs) == [""] + SplitPath(s[1..]);
      assert SplitPath(s) == [""] + SplitPath(s[1..]);
    } else {
      assert SplitPath(cs) == [""] + SplitPath(s);
    }
  }

  /** The split followed by the filter yields the maximal bracket-free runs. */
  lemma {:induction false} SplitFilterIsWords(s: string)
    ensures NonEmpty(SplitPath(s)) == Words(s)
    decreases |s|
  {
    if s == [] {
    } else if IsBracket(s[0]) {
      assert s == [s[0]] + s[1..];
      BracketPrefix(s[0], s[1..]);
      SplitFilterIsWords(s[1..]);
    } else {
      var w := Run(s);
      var rest := s[|w|..];
      assert s == w + rest;
      WordThenRest(w, rest);
      SplitFilterIsWords(rest);
    }
  }

  /** A non-empty bracket-free word before a new piece is one part of its own. */
  lemma WordThenRest(w: string, rest: string)
    requires w != "" && !HasBracket(w)
    requires rest == [] || IsBracket(rest[0])
    ensures NonEmpty(SplitPath(w + rest)) == [w] + NonEmpty(SplitPath(rest))
  {
    WordPrefix(w, rest);
    var sp := SplitPath(rest);
    assert sp[0] == "";
    assert w + sp[0] == w;
    FilterAfterWord(w, sp);
  }

  /** Replacing an empty first piece by a non-empty word adds that word in front. */
  lemma FilterAfterWord(w: string, sp: seq<string>)
    requires w != "" && sp != [] && sp[0] == ""
    ensures NonEmpty([w] + sp[1..]) == [w] + NonEmpty(sp)
  {
    var ws := [w] + sp[1..];
    assert ws[0] == w && ws[1..] == sp[1..];
    assert NonEmpty(ws) == [w] + NonEmpty(sp[1..]);
    assert NonEmpty(sp) == [] + NonEmpty(sp[1..]);
  }

  /** A bracket-free word in front of `s` is one piece when `s` starts a new one. */
  lemma {:induction false} WordPrefix(w: string, s: string)
    requires !HasBracket(w)
    requires s == [] || IsBracket(s[0])
    ensures SplitPath(w + s) == [w + SplitPath(s)[0]] + SplitPath(s)[1..]
    decreases |w|
  {
    if w != [] {
      var ws := w + s;
      assert ws[0] == w[0] && ws[1..] == w[1..] + s;
      assert w[0] in w;
      assert !IsBracket(ws[0]);
      assert !HasBracket(w[1..]) by {
        forall c | c in w[1..] ensures c in w { }
      }
      WordPrefix(w[1..], s);
      var sp := SplitPath(s);
      var rest := SplitPath(ws[1..]);
      assert rest == [w[1..] + sp[0]] + sp[1..];
      assert rest[0] == w[1..] + sp[0] && rest[1..] == sp[1..];
      assert SplitPath(ws) == [[ws[0]] + rest[0]] + rest[1..];
      assert [w[0]] + (w[1..] + sp[0]) == w + sp[0];
    } else {
      var sp := SplitPath(s);
      assert w + s == s && w + sp[0] == sp[0];
      assert [sp[0]] + sp[1..] == sp;
    }
  }

  /** Splitting and filtering the canonical text gives back exactly the keys. */
  lemma {:induction false} TokenizeRendered(keys: seq<string>)
    requires PlainKeys(keys)
    ensures PathParts(Render(keys)) == keys
  {
    if keys != [] {
      assert PlainKeys(keys[1..]);
      TokenizeRendered(keys[1..]);
      BracketedKey(keys[0], Render(keys[1..]));
    }
  }

  /** One bracketed key in front of a path contributes exactly that key. */
  lemma BracketedKey(k: string, rest: string)
    requires k != "" && !HasBracket(k)
    ensures PathParts("[" + k + "]" + rest) == [k] + PathParts(rest)
  {
    var tail := "]" + rest;
    assert "[" + k + "]" + rest == ['['] + (k + tail);
    BracketPrefix('[', k + tail);
    WordPrefix(k, tail);
    var sp := SplitPath(tail);
    assert NonEmpty(SplitPath(k + tail)) == [k] + NonEmpty(sp[1..]) by {
      assert sp[0] == "" && k + sp[0] == k;
      assert SplitPath(k + tail) == [k] + sp[1..];
      assert NonEmpty([k]) == [k];
      NonEmptyAppend([k], sp[1..]);
    }
    assert NonEmpty(sp) == NonEmpty(sp[1..]) by {
      assert [""] + sp[1..] == sp;
      assert NonEmpty([""]) == [];
      NonEmptyAppend([""], sp[1..]);
    }
    assert tail == [']'] + rest;
    BracketPrefix(']', rest);
  }

  /** A query made only of brackets (such as `[]`) has no segments. */
  lemma {:induction false} OnlyBracketsNoParts(q: string)
    requires forall i :: 0 <= i < |q| ==> IsBracket(q[i])
    ensures PathParts(q) == []
    decreases |q|
  {
    if q != [] {
      assert q == [q[0]] + q[1..];
      OnlyBracketsNoParts(q[1..]);
      BracketPrefix(q[0], q[1..]);
    }
  }

  // ---------------------------------------------------------------------
  // Properties of the walk.

  /** A segment at a position after the first never yields `undefined`. */
  lemma StepNeverUndefined(v: Value, seg: Segment)
    ensures Step(v, seg).Ok? ==> Step(v, seg).value != Undef
  {
  }

  /** Later lookups that miss become the sentinel, so `undefined` is the
      outcome of a walk only when it is the input's answer to a lone segment. */
  lemma {:induction false} UndefinedOnlyFromFirst(input: Value, segs: seq<Segment>)
    requires Walk(input, segs) == Ok(Undef)
    ensures |segs| == 1 && Get(input, segs[0]) == Ok(Undef)
  {
    var first := Get(input, segs[0]).value;
    WalkFromUndefined(first, segs[1..]);
  }

  lemma {:induction false} WalkFromUndefined(v: Value, segs: seq<Segment>)
    requires WalkFrom(v, segs) == Ok(Undef)
    ensures segs == [] && v == Undef
    decreases segs
  {
    if segs != [] {
      var w := Step(v, segs[0]);
      StepNeverUndefined(v, segs[0]);
      WalkFromUndefined(w.value, segs[1..]);
    }
  }

  /** The first segment reads the input unchanged: a missing first key is
      `undefined`, not the sentinel. */
  lemma FirstSegmentReadsInput(input: Value, seg: Segment)
    ensures Walk(input, [seg]) == Get(input, seg)
  {
  }

  /** On an array, a number selects that element; an absent or undefined
      element gives the sentinel. */
  lemma ArrayIndexStep(elems: seq<Value>, i: nat)
    ensures Step(Arr(elems), Index(i)) == Ok(if i < |elems| && elems[i] != Undef then elems[i] else Sentinel)
  {
  }

  /** On an array, a key yields an array of the same length and order whose
      i-th entry is element i's property, `undefined` entries kept. */
  lemma ArrayKeyStep(elems: seq<Value>, k: string)
    requires forall i :: 0 <= i < |elems| ==> !elems[i].Undef? && !elems[i].Null?
    ensures Step(Arr(elems), Key(k)).Ok?
    ensures Step(Arr(elems), Key(k)).value.Arr?
    ensures |Step(Arr(elems), Key(k)).value.elems| == |elems|
    ensures forall i :: 0 <= i < |elems| ==> Get(elems[i], Key(k)) == Ok(Step(Arr(elems), Key(k)).value.elems[i])
  {
  }

  /** On an object, a later segment reads the property, and a miss becomes
      the sentinel. */
  lemma ObjectStep(fields: map<string, Value>, seg: Segment)
    ensures PropertyName(seg) in fields ==> Step(Obj(fields), seg) == Ok(OrSentinel(fields[PropertyName(seg)]))
    ensures PropertyName(seg) !in fields ==> Step(Obj(fields), seg) == Ok(Sentinel)
  {
  }

  /** A later segment applied to `undefined` or `null` throws. */
  lemma StepOnNothingThrows(v: Value, seg: Segment)
    requires v.Undef? || v.Null?
    ensures Step(v, seg) == Err(TypeError)
  {
  }

  /** The numeral of a number coerces back to that number, so on objects a
      canonical numeric segment reads the property it spells. */
  lemma CoerceNumeral(n: nat)
    ensures Coerce(NatToString(n)) == Index(n)
    ensures forall m: map<string, Value> {:trigger Get(Obj(m), Index(n))} ::
      Get(Obj(m), Coerce(NatToString(n))) == Ok(if NatToString(n) in m then m[NatToString(n)] else Undef)
  {
    AllDigitsLeading(NatToString(n));
  }

  lemma {:induction false} AllDigitsLeading(s: string)
    requires AllDigits(s)
    ensures LeadingDigits(s) == s
  {
    if s != [] {
      AllDigitsLeading(s[1..]);
    }
  }
}
