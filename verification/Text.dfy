/** Python's text operations the modelled code relies on. */
module Text {

  /** `str.isspace` for one character. */
  predicate IsSpace(c: char) {
    var n := c as int;
    || 0x09 <= n <= 0x0d || 0x1c <= n <= 0x20 || n == 0x85 || n == 0xa0 || n == 0x1680
    || 0x2000 <= n <= 0x200a || n == 0x2028 || n == 0x2029 || n == 0x202f || n == 0x205f || n == 0x3000
  }

  function StripLeft(s: string): string {
    if s != "" && IsSpace(s[0]) then StripLeft(s[1..]) else s
  }

  function StripRight(s: string): string {
    if s != "" && IsSpace(s[|s| - 1]) then StripRight(s[..|s| - 1]) else s
  }

  /** `str.strip()` */
  function Strip(s: string): string {
    StripRight(StripLeft(s))
  }

  predicate IsBlank(s: string) {
    Strip(s) == ""
  }

  /** `s[:n]` */
  function Take(s: string, n: nat): string {
    if |s| <= n then s else s[..n]
  }

  /** The order of Python strings: by code point, a prefix first. */
  predicate Before(a: string, b: string) {
    if b == "" then false
    else if a == "" then true
    else a[0] < b[0] || (a[0] == b[0] && Before(a[1..], b[1..]))
  }

  lemma {:induction false} StripLeftEnds(s: string)
    ensures StripLeft(s) == "" || !IsSpace(StripLeft(s)[0])
  {
    if s != "" && IsSpace(s[0]) {
      StripLeftEnds(s[1..]);
    }
  }

  lemma {:induction false} StripRightEnds(s: string)
    ensures StripRight(s) == "" || !IsSpace(StripRight(s)[|StripRight(s)| - 1])
    ensures StripRight(s) <= s
  {
    if s != "" && IsSpace(s[|s| - 1]) {
      StripRightEnds(s[..|s| - 1]);
    }
  }

  lemma {:induction false} StripLeftMeans(s: string) returns (m: nat)
    ensures m <= |s| && StripLeft(s) == s[m..] && forall i :: 0 <= i < m ==> IsSpace(s[i])
  {
    if s != "" && IsSpace(s[0]) {
      var n := StripLeftMeans(s[1..]);
      m := n + 1;
      assert forall i :: 0 < i < m ==> s[i] == s[1..][i - 1];
    } else {
      m := 0;
    }
  }

  lemma {:induction false} StripRightMeans(s: string) returns (n: nat)
    ensures n <= |s| && StripRight(s) == s[..n] && forall i :: n <= i < |s| ==> IsSpace(s[i])
  {
    if s != "" && IsSpace(s[|s| - 1]) {
      n := StripRightMeans(s[..|s| - 1]);
      assert forall i :: 0 <= i < |s| - 1 ==> s[i] == s[..|s| - 1][i];
    } else {
      n := |s|;
    }
  }

  /** Stripping takes away space at both ends, and all of it. */
  lemma StripMeans(s: string) returns (m: nat, n: nat)
    ensures m <= n <= |s| && Strip(s) == s[m..n]
    ensures forall i :: 0 <= i < m || n <= i < |s| ==> IsSpace(s[i])
    ensures m < n ==> !IsSpace(s[m]) && !IsSpace(s[n - 1])
  {
    m := StripLeftMeans(s);
    var k := StripRightMeans(s[m..]);
    n := m + k;
    StripLeftEnds(s);
    StripRightEnds(s[m..]);
    assert s[m..][..k] == s[m..n];
    forall i | n <= i < |s| ensures IsSpace(s[i]) {
      assert s[i] == s[m..][i - m];
    }
    if m < n {
      assert s[m..][0] == s[m] && StripRight(s[m..])[k - 1] == s[n - 1];
    }
  }

  /** Blank text is all space. */
  lemma BlankIff(s: string)
    ensures IsBlank(s) <==> forall i :: 0 <= i < |s| ==> IsSpace(s[i])
  {
    var m, n := StripMeans(s);
  }

  /** Stripped text stays as it is. */
  lemma StripTwice(s: string)
    ensures Strip(Strip(s)) == Strip(s)
  {
    StripLeftEnds(s);
    StripRightEnds(StripLeft(s));
  }

  lemma {:induction false} StripRightKeepsFirst(s: string)
    requires s != "" && !IsSpace(s[0])
    ensures StripRight(s) != "" && StripRight(s)[0] == s[0]
  {
    if IsSpace(s[|s| - 1]) {
      StripRightKeepsFirst(s[..|s| - 1]);
    }
  }

  /** Text that begins with anything but space is not blank. */
  lemma StripKeepsFirst(s: string)
    requires s != "" && !IsSpace(s[0])
    ensures Strip(s) != "" && Strip(s)[0] == s[0]
  {
    StripRightKeepsFirst(s);
  }

  /** `b` goes on where `a` ends, or has the larger character at the first place they differ. */
  lemma {:induction false} BeforeMeans(a: string, b: string)
    ensures Before(a, b) <==>
            exists n :: 0 <= n <= |a| && n < |b| && a[..n] == b[..n] && (n == |a| || a[n] < b[n])
  {
    if a != "" && b != "" {
      var x, y := a[1..], b[1..];
      BeforeMeans(x, y);
      if a[0] == b[0] && Before(x, y) {
        var n :| 0 <= n <= |x| && n < |y| && x[..n] == y[..n] && (n == |x| || x[n] < y[n]);
        assert a[..n + 1] == [a[0]] + x[..n] && b[..n + 1] == [b[0]] + y[..n];
      } else if Before(a, b) {
        assert a[..0] == b[..0];
      }
      if n :| 0 <= n <= |a| && n < |b| && a[..n] == b[..n] && (n == |a| || a[n] < b[n]) {
        if n > 0 {
          assert a[..n][0] == a[0] && b[..n][0] == b[0];
          assert x[..n - 1] == a[..n][1..] && y[..n - 1] == b[..n][1..];
        }
      }
    } else if b != "" {
      assert a[..0] == b[..0];
    }
  }

  lemma {:induction false} BeforeTotal(a: string, b: string)
    ensures Before(a, b) || Before(b, a) || a == b
    ensures !(Before(a, b) && Before(b, a))
  {
    if a != "" && b != "" {
      BeforeTotal(a[1..], b[1..]);
      if a[0] == b[0] && a[1..] == b[1..] {
        assert a == [a[0]] + a[1..] && b == [b[0]] + b[1..];
      }
    }
  }

  lemma {:induction false} BeforeTransitive(a: string, b: string, c: string)
    requires Before(a, b) && Before(b, c)
    ensures Before(a, c)
  {
    if a != "" && a[0] == b[0] && b[0] == c[0] {
      BeforeTransitive(a[1..], b[1..], c[1..]);
    }
  }

  /** What does not come after `a` does not come after anything behind it. */
  lemma BeforeOrders(a: string, b: string, c: string)
    requires Before(a, b) && !Before(a, c)
    ensures !Before(b, c)
  {
    if Before(b, c) {
      BeforeTransitive(a, b, c);
    }
  }
}
