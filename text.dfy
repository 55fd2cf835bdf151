/** The two Python string operations the admin gate is built from:
    `str.split(sep)` with a one-character separator and `str.strip()` with no
    argument. Strings are sequences of Unicode scalar values. */
module Text {

  /** The characters for which Python's `str.isspace()` holds, which are
      exactly the characters `str.strip()` removes: the ASCII whitespace
      (tab, line feed, vertical tab, form feed and carriage return, 0x09-0x0D;
      the information separators 0x1C-0x1F and space, 0x1C-0x20) and the
      Unicode spaces and line/paragraph separators. */
  predicate IsSpace(c: char) {
    || '\t' <= c <= '\r'
    || '\U{1C}' <= c <= ' '
    || c == '\U{85}' || c == '\U{A0}' || c == '\U{1680}'
    || '\U{2000}' <= c <= '\U{200A}'
    || c == '\U{2028}' || c == '\U{2029}' || c == '\U{202F}' || c == '\U{205F}'
    || c == '\U{3000}'
  }

  /** Every character of `s` is whitespace (vacuously true of ""). */
  predicate AllSpace(s: string) {
    forall k :: 0 <= k < |s| ==> IsSpace(s[k])
  }

  lemma AllSpaceCons(c: char, s: string)
    ensures AllSpace([c] + s) <==> IsSpace(c) && AllSpace(s)
  {
    var t := [c] + s;
    if AllSpace(t) {
      assert IsSpace(t[0]);
      forall k | 0 <= k < |s| ensures IsSpace(s[k]) {
        assert s[k] == t[k + 1];
      }
    }
    if IsSpace(c) && AllSpace(s) {
      forall k | 0 <= k < |t| ensures IsSpace(t[k]) {
        if k > 0 { assert t[k] == s[k - 1]; }
      }
    }
  }

  lemma AllSpaceSnoc(s: string, c: char)
    ensures AllSpace(s + [c]) <==> AllSpace(s) && IsSpace(c)
  {
    var t := s + [c];
    if AllSpace(t) {
      assert IsSpace(t[|s|]);
      forall k | 0 <= k < |s| ensures IsSpace(s[k]) {
        assert s[k] == t[k];
      }
    }
    if AllSpace(s) && IsSpace(c) {
      forall k | 0 <= k < |t| ensures IsSpace(t[k]) {
        if k < |s| { assert t[k] == s[k]; }
      }
    }
  }

  // ---------------------------------------------------------------------------
  // str.strip()
  // ---------------------------------------------------------------------------

  /** `s.strip()`: `s` without its leading and trailing whitespace. The
      result never starts or ends with whitespace; `StripShape` says where it
      sits in `s`. */
  function Strip(s: string): (r: string)
    ensures |r| <= |s|
    ensures r == [] || (!IsSpace(r[0]) && !IsSpace(r[|r| - 1]))
    decreases |s|
  {
    if |s| > 0 && IsSpace(s[0]) then Strip(s[1..])
    else if |s| > 0 && IsSpace(s[|s| - 1]) then Strip(s[..|s| - 1])
    else s
  }

  /** `s` is whitespace, then `Strip(s)`, then whitespace; `i` is where the
      stripped text starts. */
  lemma {:induction false} StripShape(s: string) returns (i: nat)
    ensures i + |Strip(s)| <= |s| && s[i..i + |Strip(s)|] == Strip(s)
    ensures AllSpace(s[..i]) && AllSpace(s[i + |Strip(s)|..])
    decreases |s|
  {
    if |s| > 0 && IsSpace(s[0]) {
      var j := StripShape(s[1..]);
      i := ShiftLeading(s, j);
    } else if |s| > 0 && IsSpace(s[|s| - 1]) {
      i := StripShape(s[..|s| - 1]);
      ExtendTrailing(s, i);
    } else {
      i := 0;
      assert s[..0] == [] && s[|s|..] == [];
    }
  }

  lemma ShiftLeading(s: string, j: nat) returns (i: nat)
    requires |s| > 0 && IsSpace(s[0])
    requires var t, r := s[1..], Strip(s[1..]);
             j + |r| <= |t| && t[j..j + |r|] == r && AllSpace(t[..j]) && AllSpace(t[j + |r|..])
    ensures i == j + 1
    ensures i + |Strip(s)| <= |s| && s[i..i + |Strip(s)|] == Strip(s)
    ensures AllSpace(s[..i]) && AllSpace(s[i + |Strip(s)|..])
  {
    var t, r := s[1..], Strip(s[1..]);
    assert Strip(s) == r;
    i := j + 1;
    assert s[i..i + |r|] == t[j..j + |r|];
    assert s[..i] == [s[0]] + t[..j];
    AllSpaceCons(s[0], t[..j]);
    assert s[i + |r|..] == t[j + |r|..];
  }

  lemma ExtendTrailing(s: string, i: nat)
    requires |s| > 0 && !IsSpace(s[0]) && IsSpace(s[|s| - 1])
    requires var t, r := s[..|s| - 1], Strip(s[..|s| - 1]);
             i + |r| <= |t| && t[i..i + |r|] == r && AllSpace(t[..i]) && AllSpace(t[i + |r|..])
    ensures i + |Strip(s)| <= |s| && s[i..i + |Strip(s)|] == Strip(s)
    ensures AllSpace(s[..i]) && AllSpace(s[i + |Strip(s)|..])
  {
    var t, r := s[..|s| - 1], Strip(s[..|s| - 1]);
    assert Strip(s) == r;
    assert forall k :: 0 <= k < |t| ==> t[k] == s[k];
    assert s[i..i + |r|] == t[i..i + |r|];
    assert s[..i] == t[..i];
    assert s[i + |r|..] == t[i + |r|..] + [s[|s| - 1]];
    AllSpaceSnoc(t[i + |r|..], s[|s| - 1]);
  }

  /** Stripping is determined by the shape that `Strip` promises: whatever
      whitespace surrounds a string without whitespace at its ends is removed,
      and exactly that. */
  lemma {:induction false} StripPadded(a: string, t: string, b: string)
    requires AllSpace(a) && AllSpace(b)
    requires t == [] || (!IsSpace(t[0]) && !IsSpace(t[|t| - 1]))
    ensures Strip(a + t + b) == t
    decreases |a| + |b|
  {
    var s := a + t + b;
    if |a| > 0 {
      assert IsSpace(s[0]);
      assert s[1..] == a[1..] + t + b;
      StripPadded(a[1..], t, b);
    } else if |b| > 0 {
      if t == [] {
        assert s == b;
        assert IsSpace(s[0]);
        assert s[1..] == [] + [] + b[1..];
        StripPadded([], [], b[1..]);
      } else {
        assert s[0] == t[0];
        assert IsSpace(s[|s| - 1]);
        assert s[..|s| - 1] == [] + t + b[..|b| - 1];
        StripPadded([], t, b[..|b| - 1]);
      }
    } else {
      assert s == t;
    }
  }

  /** Stripping twice is stripping once. */
  lemma StripIdempotent(s: string)
    ensures Strip(Strip(s)) == Strip(s)
  {
    var t := Strip(s);
    assert [] + t + [] == t;
    StripPadded([], t, []);
  }

  /** A string strips to "" exactly when it is all whitespace (this is the
      Python truthiness test `if ip.strip()`). */
  lemma StripEmptyIff(s: string)
    ensures Strip(s) == "" <==> AllSpace(s)
  {
    if AllSpace(s) {
      assert s + [] + [] == s;
      StripPadded(s, [], []);
    }
  }

  /** Stripping never introduces a character. */
  lemma StripChars(s: string, c: char)
    requires c in Strip(s)
    ensures c in s
  {
    var i := StripShape(s);
  }

  // ---------------------------------------------------------------------------
  // str.split(sep)
  // ---------------------------------------------------------------------------

  /** `s.split(sep)` for a one-character separator: the runs of `s` between
      occurrences of `sep`, empty runs included. There is always at least one
      piece; `"".split(sep)` is `[""]`. */
  function Split(s: string, sep: char): (r: seq<string>)
    ensures |r| >= 1
    decreases |s|
  {
    if |s| == 0 then [""]
    else if s[0] == sep then [""] + Split(s[1..], sep)
    else
      var rest := Split(s[1..], sep);
      [[s[0]] + rest[0]] + rest[1..]
  }

  /** `sep.join(ps)`: the pieces with one separator between neighbours. */
  function Join(ps: seq<string>, sep: char): string
    requires |ps| >= 1
  {
    if |ps| == 1 then ps[0] else ps[0] + [sep] + Join(ps[1..], sep)
  }

  /** No piece of a split contains the separator. */
  predicate NoSep(ps: seq<string>, sep: char) {
    forall k :: 0 <= k < |ps| ==> sep !in ps[k]
  }

  /** Splitting loses nothing: joining the pieces gives back the string, and
      no piece holds a separator. */
  lemma {:induction false} JoinSplit(s: string, sep: char)
    ensures Join(Split(s, sep), sep) == s
    ensures NoSep(Split(s, sep), sep)
    decreases |s|
  {
    if |s| == 0 {
    } else if s[0] == sep {
      JoinSplit(s[1..], sep);
      var rest := Split(s[1..], sep);
      assert Split(s, sep) == [""] + rest;
      assert Split(s, sep)[1..] == rest;
      assert s == [] + [sep] + s[1..];
    } else {
      JoinSplit(s[1..], sep);
      var rest := Split(s[1..], sep);
      var ps := Split(s, sep);
      assert ps == [[s[0]] + rest[0]] + rest[1..];
      if |rest| == 1 {
        assert s == [s[0]] + s[1..];
      } else {
        assert ps[1..] == rest[1..];
        assert Join(rest, sep) == rest[0] + [sep] + Join(rest[1..], sep);
        assert s == [s[0]] + s[1..];
      }
      forall k | 0 <= k < |ps| ensures sep !in ps[k] {
        if k == 0 {
          assert sep !in rest[0];
        } else {
          assert ps[k] == rest[k];
        }
      }
    }
  }

  /** Splitting a separator-free string gives that string alone. */
  lemma {:induction false} SplitNoSep(p: string, sep: char)
    requires sep !in p
    ensures Split(p, sep) == [p]
    decreases |p|
  {
    if |p| > 0 {
      SplitNoSep(p[1..], sep);
      assert p == [p[0]] + p[1..];
    }
  }

  /** A separator-free piece followed by a separator splits off as the first piece. */
  lemma {:induction false} SplitAfterPiece(p: string, sep: char, t: string)
    requires sep !in p
    ensures Split(p + [sep] + t, sep) == [p] + Split(t, sep)
    decreases |p|
  {
    if |p| == 0 {
      assert p + [sep] + t == [sep] + t;
      assert ([sep] + t)[1..] == t;
    } else {
      var s := p + [sep] + t;
      assert s[1..] == p[1..] + [sep] + t;
      SplitAfterPiece(p[1..], sep, t);
      assert [p[0]] + p[1..] == p;
    }
  }

  /** Splitting undoes joining: separator-free pieces are recovered exactly.
      With `JoinSplit` this says that `Split(s, sep)` is the one list of
      separator-free pieces whose join is `s`. */
  lemma {:induction false} SplitJoin(ps: seq<string>, sep: char)
    requires |ps| >= 1 && NoSep(ps, sep)
    ensures Split(Join(ps, sep), sep) == ps
    decreases |ps|
  {
    if |ps| == 1 {
      SplitNoSep(ps[0], sep);
    } else {
      assert sep !in ps[0];
      SplitJoin(ps[1..], sep);
      SplitAfterPiece(ps[0], sep, Join(ps[1..], sep));
      assert [ps[0]] + ps[1..] == ps;
    }
  }

  /** There is one more piece than there are separators. */
  lemma {:induction false} SplitCount(s: string, sep: char)
    ensures |Split(s, sep)| == multiset(s)[sep] + 1
    decreases |s|
  {
    if |s| > 0 {
      SplitCount(s[1..], sep);
      assert s == [s[0]] + s[1..];
      assert multiset(s) == multiset([s[0]]) + multiset(s[1..]);
    }
  }
}
