/**
 * The set-membership key of a point: its two coordinates written in
 * decimal and joined by a comma, as a template string renders integers.
 * The key ignores the parent tag, and distinct coordinates give distinct keys.
 */
module PointKeys {
  import opened Geometry

  predicate IsDigit(c: char)
  {
    '0' <= c <= '9'
  }

  /** The decimal digit of value `n`. */
  function DigitChar(n: nat): (c: char)
    requires n < 10
    ensures IsDigit(c) && c as int - '0' as int == n
  {
    ('0' as int + n) as char
  }

  /** The decimal digits of `n`, most significant first, without leading zeros. */
  function NatToString(n: nat): (s: string)
    ensures |s| >= 1 && (|s| == 1 <==> n < 10) && IsDigit(s[0])
    ensures s[0] == '0' <==> n == 0
  {
    if n < 10 then [DigitChar(n)] else NatToString(n / 10) + [DigitChar(n % 10)]
  }

  lemma {:induction false} NatToStringDigits(n: nat)
    ensures forall i :: 0 <= i < |NatToString(n)| ==> IsDigit(NatToString(n)[i])
  {
    if n >= 10 {
      NatToStringDigits(n / 10);
      var s := NatToString(n);
      assert s == NatToString(n / 10) + [DigitChar(n % 10)];
    }
  }

  /** An integer in decimal, with a leading minus sign when negative. */
  function IntToString(n: int): (s: string)
    ensures |s| >= 1 && (s[0] == '-' <==> n < 0)
    decreases if n < 0 then 1 else 0
  {
    if n < 0 then "-" + IntToString(-n) else NatToString(n)
  }

  /** The key `"x,y"` of the coordinates `(x, y)`. */
  function KeyOf(x: int, y: int): string
  {
    IntToString(x) + "," + IntToString(y)
  }

  /** The key of a point is the key of its coordinates; the parent tag plays no part. */
  function PointKey(p: Point): string
  {
    KeyOf(p.x, p.y)
  }

  lemma {:induction false} NatToStringInjective(a: nat, b: nat)
    ensures NatToString(a) == NatToString(b) <==> a == b
  {
    if NatToString(a) == NatToString(b) {
      var s := NatToString(a);
      if a < 10 {
        assert b < 10;
        assert DigitChar(a) == s[0] == DigitChar(b);
      } else {
        assert b >= 10;
        var sa, sb := NatToString(a / 10), NatToString(b / 10);
        assert s == sa + [DigitChar(a % 10)] == sb + [DigitChar(b % 10)];
        assert sa == s[..|s| - 1] == sb;
        assert DigitChar(a % 10) == s[|s| - 1] == DigitChar(b % 10);
        NatToStringInjective(a / 10, b / 10);
      }
    }
  }

  lemma IntToStringInjective(a: int, b: int)
    ensures IntToString(a) == IntToString(b) <==> a == b
  {
    var sa, sb := IntToString(a), IntToString(b);
    if sa == sb {
      if a < 0 {
        assert b < 0;
        var na, nb := NatToString(-a), NatToString(-b);
        assert IntToString(-a) == na && IntToString(-b) == nb;
        assert sa == "-" + na && sb == "-" + nb;
        assert na == sa[1..] == sb[1..] == nb;
        NatToStringInjective(-a, -b);
      } else {
        assert b >= 0;
        assert sa == NatToString(a) && sb == NatToString(b);
        NatToStringInjective(a, b);
      }
    }
  }

  /** `s` nowhere holds the character `c`. */
  predicate Lacks(s: string, c: char)
  {
    forall i :: 0 <= i < |s| ==> s[i] != c
  }

  /** A rendered integer holds only decimal digits and the minus sign. */
  lemma IntToStringChars(n: int)
    ensures forall i :: 0 <= i < |IntToString(n)| ==> IsDigit(IntToString(n)[i]) || IntToString(n)[i] == '-'
  {
    var s := IntToString(n);
    NatToStringDigits(if n < 0 then -n else n);
    if n < 0 {
      assert IntToString(-n) == NatToString(-n);
      assert s == "-" + NatToString(-n);
      forall i | 0 < i < |s|
        ensures IsDigit(s[i])
      {
        assert s[i] == NatToString(-n)[i - 1];
      }
    }
  }

  /** A string joined around `sep` splits back uniquely when its left part lacks `sep`. */
  lemma SplitAt(a: string, b: string, c: string, d: string, sep: char)
    requires Lacks(a, sep) && Lacks(c, sep)
    requires a + [sep] + b == c + [sep] + d
    ensures a == c && b == d
  {
    var s := a + [sep] + b;
    assert s[|a|] == sep && s == c + [sep] + d && s[|c|] == sep;
    assert forall i :: 0 <= i < |a| ==> s[i] == a[i];
    assert forall i :: 0 <= i < |c| ==> s[i] == c[i];
    assert |a| == |c|;
    assert a == s[..|a|] == c;
    assert b == s[|a| + 1..] == d;
  }

  /** Two keys agree exactly when the coordinates do, whatever the parents are. */
  lemma PointKeyCoordinates(p: Point, q: Point)
    ensures PointKey(p) == PointKey(q) <==> p.x == q.x && p.y == q.y
  {
    if PointKey(p) == PointKey(q) {
      IntToStringChars(p.x);
      IntToStringChars(q.x);
      assert PointKey(p) == IntToString(p.x) + [','] + IntToString(p.y);
      assert PointKey(q) == IntToString(q.x) + [','] + IntToString(q.y);
      SplitAt(IntToString(p.x), IntToString(p.y), IntToString(q.x), IntToString(q.y), ',');
      IntToStringInjective(p.x, q.x);
      IntToStringInjective(p.y, q.y);
    }
  }

  /** A point key holds no `e`: digits, minus signs and one comma only. */
  lemma PointKeyLacksE(p: Point)
    ensures Lacks(PointKey(p), 'e')
  {
    IntToStringChars(p.x);
    IntToStringChars(p.y);
    var s, a := PointKey(p), IntToString(p.x);
    forall i | 0 <= i < |s|
      ensures s[i] != 'e'
    {
      if i > |a| {
        assert s[i] == IntToString(p.y)[i - |a| - 1];
      }
    }
  }

  /** The React key `s<from>e<to>` of a segment. */
  function SegmentKey(l: Segment): string
  {
    "s" + PointKey(l.from) + "e" + PointKey(l.to)
  }

  /** `"s" + a + "e" + b` splits back uniquely when `a` holds no `e`. */
  lemma TaggedPairSplits(a: string, b: string, c: string, d: string)
    requires Lacks(a, 'e') && Lacks(c, 'e')
    requires "s" + a + "e" + b == "s" + c + "e" + d
    ensures a == c && b == d
  {
    var s := "s" + a + "e" + b;
    assert s[1..] == a + ['e'] + b;
    assert s[1..] == c + ['e'] + d;
    SplitAt(a, b, c, d, 'e');
  }

  /** Two segment keys agree exactly when both endpoint keys do. */
  lemma SegmentKeyInjective(l: Segment, m: Segment)
    ensures SegmentKey(l) == SegmentKey(m) <==>
      PointKey(l.from) == PointKey(m.from) && PointKey(l.to) == PointKey(m.to)
  {
    if SegmentKey(l) == SegmentKey(m) {
      PointKeyLacksE(l.from);
      PointKeyLacksE(m.from);
      TaggedPairSplits(PointKey(l.from), PointKey(l.to), PointKey(m.from), PointKey(m.to));
    }
  }
}
