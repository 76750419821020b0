/** The few Python `str` operations the scripts use, on strings as sequences of characters. */
module PyStrings {
  import opened Results

  /** `s` occurs in `t` starting at position `i`. */
  predicate OccursAt(t: string, s: string, i: nat)
  {
    i + |s| <= |t| && t[i..i + |s|] == s
  }

  /** The least position at or after `from` where `s` occurs in `t`, if any. */
  function IndexFrom(t: string, s: string, from: nat): (r: Option<nat>)
    requires from <= |t|
    ensures r.Some? ==> from <= r.value && OccursAt(t, s, r.value)
    ensures r.Some? ==> forall j :: from <= j < r.value ==> !OccursAt(t, s, j)
    ensures r.None? ==> forall j :: from <= j ==> !OccursAt(t, s, j)
    decreases |t| - from
  {
    if from + |s| > |t| then None
    else if t[from..from + |s|] == s then Some(from)
    else IndexFrom(t, s, from + 1)
  }

  /** `t.index(s)` (None where Python raises ValueError); also decides `s in t`. */
  function IndexOf(t: string, s: string): (r: Option<nat>)
  {
    IndexFrom(t, s, 0)
  }

  /** `s in t` for strings. */
  predicate Contains(t: string, s: string)
  {
    IndexOf(t, s).Some?
  }

  /** `t.index(s)` finds the first occurrence, and fails exactly when there is none. */
  lemma IndexOfSpec(t: string, s: string)
    ensures IndexOf(t, s).Some? <==> exists i :: OccursAt(t, s, i)
    ensures IndexOf(t, s).Some? ==>
              OccursAt(t, s, IndexOf(t, s).value) &&
              forall j :: 0 <= j < IndexOf(t, s).value ==> !OccursAt(t, s, j)
  {
    if IndexOf(t, s).Some? {
      assert OccursAt(t, s, IndexOf(t, s).value);
    }
  }

  /** `s in t` holds exactly when `s` occurs somewhere in `t`. */
  lemma ContainsIffOccurs(t: string, s: string)
    ensures Contains(t, s) <==> exists i :: OccursAt(t, s, i)
  {
    IndexOfSpec(t, s);
  }

  /** An occurrence makes `s in t` true. */
  lemma ContainsAt(t: string, s: string, i: nat)
    requires OccursAt(t, s, i)
    ensures Contains(t, s)
  {
    IndexOfSpec(t, s);
  }

  /** `s in t` stays true when text is added behind `t`. */
  lemma ContainsInLonger(t: string, u: string, s: string)
    requires Contains(t, s)
    ensures Contains(t + u, s)
  {
    IndexOfSpec(t, s);
    var i := IndexOf(t, s).value;
    assert (t + u)[i..i + |s|] == t[i..i + |s|];
    ContainsAt(t + u, s, i);
  }

  /** `s.split(c)[0]`: everything before the first `c`. */
  function BeforeFirst(s: string, c: char): (r: string)
    ensures |r| <= |s| && r == s[..|r|]
    ensures c !in r
    ensures |r| < |s| ==> s[|r|] == c
  {
    if s == [] then []
    else if s[0] == c then []
    else [s[0]] + BeforeFirst(s[1..], c)
  }

  /** `s.split(c)[-1]`: everything after the last `c`. */
  function AfterLast(s: string, c: char): (r: string)
    ensures |r| <= |s| && r == s[|s| - |r|..]
    ensures c !in r
    ensures |r| < |s| ==> s[|s| - |r| - 1] == c
  {
    if s == [] then []
    else if s[|s| - 1] == c then []
    else AfterLast(s[..|s| - 1], c) + [s[|s| - 1]]
  }

  /** Text after a separator does not depend on what comes before the last separator. */
  lemma {:induction false} AfterLastOfJoin(a: string, c: char, b: string)
    ensures AfterLast(a + [c] + b, c) == AfterLast(b, c)
    decreases |b|
  {
    var s := a + [c] + b;
    if b == [] {
      assert s[|s| - 1] == c;
    } else {
      assert s[..|s| - 1] == a + [c] + b[..|b| - 1];
      AfterLastOfJoin(a, c, b[..|b| - 1]);
    }
  }

  /** Splitting at the first separator returns exactly what precedes it. */
  lemma {:induction false} BeforeFirstOfJoin(a: string, c: char, b: string)
    requires c !in a
    ensures BeforeFirst(a + [c] + b, c) == a
    decreases |a|
  {
    if a == [] {
      assert (a + [c] + b)[0] == c;
    } else {
      assert (a + [c] + b)[1..] == a[1..] + [c] + b;
      BeforeFirstOfJoin(a[1..], c, b);
    }
  }

  predicate IsDigit(c: char)
  {
    '0' <= c <= '9'
  }

  predicate AllDigits(s: string)
  {
    forall i :: 0 <= i < |s| ==> IsDigit(s[i])
  }

  /** `re.sub('[^0-9]', '', s)`: the digits of `s`, in order. */
  function DigitsOnly(s: string): (r: string)
    ensures AllDigits(r)
    ensures |r| <= |s|
    ensures AllDigits(s) ==> r == s
  {
    if s == [] then []
    else if IsDigit(s[0]) then [s[0]] + DigitsOnly(s[1..])
    else DigitsOnly(s[1..])
  }

  /** Dropping the non-digits of a concatenation drops them from each part. */
  lemma {:induction false} DigitsOnlyConcat(a: string, b: string)
    ensures DigitsOnly(a + b) == DigitsOnly(a) + DigitsOnly(b)
    decreases |a|
  {
    if a == [] {
      assert a + b == b;
    } else {
      assert (a + b)[0] == a[0];
      assert (a + b)[1..] == a[1..] + b;
      DigitsOnlyConcat(a[1..], b);
    }
  }

  /** A single character is kept exactly when it is a digit. */
  lemma DigitsOnlyOfChar(c: char)
    ensures DigitsOnly([c]) == if IsDigit(c) then [c] else []
  {
    assert [c][1..] == [];
  }

  /** The characters Python's `str.strip()` removes (`str.isspace`). */
  predicate IsSpace(c: char)
  {
    || ('\U{9}' <= c <= '\U{D}')          // tab, line feed, vertical tab, form feed, carriage return
    || ('\U{1C}' <= c <= '\U{20}')        // file, group, record and unit separators; space
    || c == '\U{85}' || c == '\U{A0}' || c == '\U{1680}'
    || ('\U{2000}' <= c <= '\U{200A}')
    || c == '\U{2028}' || c == '\U{2029}' || c == '\U{202F}' || c == '\U{205F}' || c == '\U{3000}'
  }

  /** `s.lstrip()` */
  function LeftStrip(s: string): (r: string)
    ensures |r| <= |s| && r == s[|s| - |r|..]
    ensures forall i :: 0 <= i < |s| - |r| ==> IsSpace(s[i])
    ensures r != [] ==> !IsSpace(r[0])
  {
    if s != [] && IsSpace(s[0]) then LeftStrip(s[1..]) else s
  }

  /** `s.rstrip()` */
  function RightStrip(s: string): (r: string)
    ensures |r| <= |s| && r == s[..|r|]
    ensures forall i :: |r| <= i < |s| ==> IsSpace(s[i])
    ensures r != [] ==> !IsSpace(r[|r| - 1])
  {
    if s != [] && IsSpace(s[|s| - 1]) then RightStrip(s[..|s| - 1]) else s
  }

  /** `s.strip()` */
  function Strip(s: string): string
  {
    RightStrip(LeftStrip(s))
  }

  /** A string strips to nothing exactly when every character of it is white space. */
  lemma StripEmptyIffBlank(s: string)
    ensures Strip(s) == "" <==> forall i :: 0 <= i < |s| ==> IsSpace(s[i])
  {
  }
}
