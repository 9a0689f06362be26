/**
 * The Python string operations the service relies on: str.strip() with no
 * argument, str.startswith, str.find, str.split with an explicit separator,
 * and str() of an int. Strings are sequences of Unicode scalar values.
 */
module PyText {
  import opened Wrappers

  /** Python's str.isspace() for one character (the set str.strip() removes). */
  predicate IsSpace(c: char) {
    var n := c as int;
    || (0x09 <= n <= 0x0D) || (0x1C <= n <= 0x20) || n == 0x85 || n == 0xA0
    || n == 0x1680 || (0x2000 <= n <= 0x200A) || n == 0x2028 || n == 0x2029
    || n == 0x202F || n == 0x205F || n == 0x3000
  }

  /**
   * The ASCII blanks are whitespace to str.strip(); the fence character and
   * the characters a JSON document starts with are not, so trimming never
   * eats into either.
   */
  lemma {:induction false} IsSpaceMembers(c: char)
    ensures c == ' ' || c == '\t' || c == '\n' || c == '\r' ==> IsSpace(c)
    ensures c == '`' || c == '{' || c == '[' || c == '"' ==> !IsSpace(c)
  {
  }

  predicate AllSpace(s: string) {
    forall i :: 0 <= i < |s| ==> IsSpace(s[i])
  }

  /** Neither end of `s` is whitespace: str.strip() leaves it alone. */
  predicate IsStripped(s: string) {
    s == [] || (!IsSpace(s[0]) && !IsSpace(s[|s| - 1]))
  }

  /** How many whitespace characters `s` starts with. */
  function LeadingSpace(s: string): (n: nat)
    ensures n <= |s|
    ensures forall k :: 0 <= k < n ==> IsSpace(s[k])
    ensures n < |s| ==> !IsSpace(s[n])
  {
    if s != [] && IsSpace(s[0]) then 1 + LeadingSpace(s[1..]) else 0
  }

  /** Where the whitespace that `s` ends with begins. */
  function TrailingSpaceStart(s: string): (n: nat)
    ensures n <= |s|
    ensures forall k :: n <= k < |s| ==> IsSpace(s[k])
    ensures n > 0 ==> !IsSpace(s[n - 1])
  {
    if s != [] && IsSpace(s[|s| - 1]) then TrailingSpaceStart(s[..|s| - 1]) else |s|
  }

  /** str.lstrip(). */
  function StripLeft(s: string): (r: string) {
    s[LeadingSpace(s)..]
  }

  /** str.rstrip(). */
  function StripRight(s: string): (r: string) {
    s[..TrailingSpaceStart(s)]
  }

  /** str.strip(): the result has no whitespace at either end and is no longer than `s`. */
  function Strip(s: string): (r: string)
    ensures IsStripped(r) && |r| <= |s|
  {
    var l := StripLeft(s);
    var r := StripRight(l);
    assert r != [] ==> r[0] == l[0] && l[0] == s[LeadingSpace(s)];
    r
  }

  /** What str.strip() removes is whitespace, from the two ends only. */
  lemma {:induction false} StripRemovesOnlyPadding(s: string)
    ensures exists i, j :: 0 <= i <= j <= |s| && Strip(s) == s[i..j] && AllSpace(s[..i]) && AllSpace(s[j..])
  {
    var i := LeadingSpace(s);
    var l := s[i..];
    var t := TrailingSpaceStart(l);
    assert Strip(s) == s[i..i + t];
    assert AllSpace(s[i + t..]) by {
      assert s[i + t..] == l[t..];
    }
  }

  lemma {:induction false} LeadingSpacePadded(ws: string, x: string)
    requires AllSpace(ws)
    ensures LeadingSpace(ws + x) == |ws| + LeadingSpace(x)
    decreases |ws|
  {
    if ws != [] {
      assert (ws + x)[0] == ws[0];
      assert (ws + x)[1..] == ws[1..] + x;
      LeadingSpacePadded(ws[1..], x);
    } else {
      assert ws + x == x;
    }
  }

  lemma {:induction false} TrailingSpacePadded(x: string, ws: string)
    requires AllSpace(ws)
    ensures TrailingSpaceStart(x + ws) == TrailingSpaceStart(x)
    decreases |ws|
  {
    if ws != [] {
      assert (x + ws)[|x + ws| - 1] == ws[|ws| - 1];
      assert (x + ws)[..|x + ws| - 1] == x + ws[..|ws| - 1];
      TrailingSpacePadded(x, ws[..|ws| - 1]);
    } else {
      assert x + ws == x;
    }
  }

  /**
   * Stripping whitespace padding from a stripped string gives that string
   * back; with StripRemovesOnlyPadding this determines str.strip().
   */
  lemma {:induction false} StripOfPadded(ws1: string, j: string, ws2: string)
    requires AllSpace(ws1) && AllSpace(ws2) && IsStripped(j)
    ensures Strip(ws1 + j + ws2) == j
  {
    var s := ws1 + j + ws2;
    assert s == ws1 + (j + ws2);
    LeadingSpacePadded(ws1, j + ws2);
    if j == [] {
      assert j + ws2 == ws2 + [];
      LeadingSpacePadded(ws2, []);
      assert StripLeft(s) == [];
    } else {
      assert (j + ws2)[0] == j[0];
      assert StripLeft(s) == j + ws2;
      TrailingSpacePadded(j, ws2);
      assert TrailingSpaceStart(j) == |j|;
      assert (j + ws2)[..|j|] == j;
    }
  }

  /** str.strip() is idempotent, and a stripped string is its own strip. */
  lemma {:induction false} StripIdempotent(s: string)
    ensures Strip(Strip(s)) == Strip(s)
    ensures Strip(s) == s <==> IsStripped(s)
  {
    var t := Strip(s);
    StripOfPadded([], t, []);
    assert [] + t + [] == t;
    if IsStripped(s) {
      StripOfPadded([], s, []);
      assert [] + s + [] == s;
    }
  }

  /** str.startswith(p). */
  predicate StartsWith(s: string, p: string) {
    |p| <= |s| && s[..|p|] == p
  }

  /** `sep` occurs in `s` starting at index i. */
  predicate Occurs(s: string, sep: string, i: int) {
    0 <= i && i + |sep| <= |s| && s[i..i + |sep|] == sep
  }

  /** The `in` operator on strings. */
  predicate Contains(s: string, t: string) {
    exists i | 0 <= i <= |s| :: Occurs(s, t, i)
  }

  lemma {:induction false} OccursShift(s: string, sep: string, j: int)
    requires s != [] && 0 <= j
    ensures Occurs(s, sep, j + 1) <==> Occurs(s[1..], sep, j)
  {
    if j + 1 + |sep| <= |s| {
      assert s[j + 1..j + 1 + |sep|] == s[1..][j..j + |sep|];
    }
  }

  /** str.find(sep) for a non-empty separator: the leftmost occurrence. */
  function Find(s: string, sep: string): (r: Option<nat>)
    requires sep != []
    ensures r.Some? ==> Occurs(s, sep, r.value)
    ensures r.Some? ==> forall j :: 0 <= j < r.value ==> !Occurs(s, sep, j)
    ensures r.None? ==> forall j :: !Occurs(s, sep, j)
    decreases |s|
  {
    if |s| < |sep| then None
    else if s[..|sep|] == sep then Some(0)
    else
      var rest := Find(s[1..], sep);
      assert !Occurs(s, sep, 0);
      forall j | 1 <= j ensures Occurs(s, sep, j) <==> Occurs(s[1..], sep, j - 1) {
        OccursShift(s, sep, j - 1);
      }
      match rest
      case None => None
      case Some(k) => Some(k + 1)
  }

  /** A found index is the only one the contract of Find admits. */
  lemma {:induction false} FindLeftmost(s: string, sep: string, i: nat)
    requires sep != []
    requires Occurs(s, sep, i) && forall j :: 0 <= j < i ==> !Occurs(s, sep, j)
    ensures Find(s, sep) == Some(i)
  {
  }

  /** "sep".join(parts). */
  function Join(parts: seq<string>, sep: string): (r: string)
    requires |parts| >= 1
  {
    if |parts| == 1 then parts[0] else parts[0] + sep + Join(parts[1..], sep)
  }

  /**
   * str.split(sep) for a non-empty separator: the pieces between
   * non-overlapping occurrences, scanning left to right. Joining them with
   * the separator gives the input back, and no piece contains it.
   */
  function Split(s: string, sep: string): (r: seq<string>)
    requires sep != []
    ensures |r| >= 1
    ensures Join(r, sep) == s
    ensures forall k :: 0 <= k < |r| ==> !Contains(r[k], sep)
    decreases |s|
  {
    match Find(s, sep)
    case None => [s]
    case Some(i) =>
      var head := s[..i];
      var rest := Split(s[i + |sep|..], sep);
      forall j | 0 <= j ensures !Occurs(head, sep, j) {
        if j + |sep| <= |head| {
          assert head[j..j + |sep|] == s[j..j + |sep|];
          assert !Occurs(s, sep, j);
        }
      }
      assert ([head] + rest)[1..] == rest;
      assert s == head + sep + s[i + |sep|..];
      [head] + rest
  }

  /**
   * The separator that ends piece k of `parts` sits at the end of the first
   * k + 1 pieces joined, and no occurrence starts earlier inside that piece.
   */
  predicate EndsAtLeftmost(s: string, sep: string, parts: seq<string>, k: nat)
    requires k < |parts|
  {
    var p := |Join(parts[..k + 1], sep)|;
    && |parts[k]| <= p
    && Occurs(s, sep, p)
    && forall j :: p - |parts[k]| <= j < p ==> !Occurs(s, sep, j)
  }

  /**
   * Split scans left to right: every piece but the last ends at the leftmost
   * occurrence starting inside it. Together with Split's contract this fixes
   * the pieces uniquely, even for a separator that overlaps itself.
   */
  lemma {:induction false} SplitScansLeftmost(s: string, sep: string, k: nat)
    requires sep != [] && k < |Split(s, sep)| - 1
    ensures EndsAtLeftmost(s, sep, Split(s, sep), k)
    decreases |s|
  {
    var i := SplitFound(s, sep);
    var rest := Split(s[i + |sep|..], sep);
    if k == 0 {
      LeftmostFirst(s, sep, i, rest);
    } else {
      SplitScansLeftmost(s[i + |sep|..], sep, k - 1);
      LeftmostCons(s, sep, i, rest, k);
    }
  }

  /** A split into two or more pieces: the first ends at the leftmost occurrence i. */
  lemma {:induction false} SplitFound(s: string, sep: string) returns (i: nat)
    requires sep != [] && |Split(s, sep)| >= 2
    ensures i + |sep| <= |s| && Occurs(s, sep, i)
    ensures forall j :: 0 <= j < i ==> !Occurs(s, sep, j)
    ensures Split(s, sep) == [s[..i]] + Split(s[i + |sep|..], sep)
  {
    i := Find(s, sep).value;
  }

  /** Piece 0 ends at the leftmost occurrence i. */
  lemma {:induction false} LeftmostFirst(s: string, sep: string, i: nat, rest: seq<string>)
    requires i <= |s| && Occurs(s, sep, i) && forall j :: 0 <= j < i ==> !Occurs(s, sep, j)
    ensures EndsAtLeftmost(s, sep, [s[..i]] + rest, 0)
  {
    assert ([s[..i]] + rest)[..1] == [s[..i]];
  }

  /** Piece k of [s[..i]] + rest is piece k - 1 of rest, shifted past the separator at i. */
  lemma {:induction false} LeftmostCons(s: string, sep: string, i: nat, rest: seq<string>, k: nat)
    requires i + |sep| <= |s| && 1 <= k < |rest|
    requires EndsAtLeftmost(s[i + |sep|..], sep, rest, k - 1)
    ensures EndsAtLeftmost(s, sep, [s[..i]] + rest, k)
  {
    var m := i + |sep|;
    JoinCons(s[..i], rest, sep, k);
    assert ([s[..i]] + rest)[k] == rest[k - 1];
    LiftLeftmost(s, sep, m, rest[k - 1], |Join(rest[..k], sep)|);
  }

  /** Joining a head in front of the first k pieces of `rest`. */
  lemma {:induction false} JoinCons(head: string, rest: seq<string>, sep: string, k: nat)
    requires 1 <= k <= |rest|
    ensures Join(([head] + rest)[..k + 1], sep) == head + sep + Join(rest[..k], sep)
  {
    var parts := ([head] + rest)[..k + 1];
    assert parts[0] == head;
    assert parts[1..] == rest[..k];
  }

  /** A leftmost occurrence in s[m..] is one in s, shifted by m. */
  lemma {:induction false} LiftLeftmost(s: string, sep: string, m: nat, piece: string, q: nat)
    requires m <= |s| && |piece| <= q
    requires Occurs(s[m..], sep, q)
    requires forall j :: q - |piece| <= j < q ==> !Occurs(s[m..], sep, j)
    ensures Occurs(s, sep, m + q)
    ensures forall j :: m + q - |piece| <= j < m + q ==> !Occurs(s, sep, j)
  {
    OccursAfter(s, sep, m, m + q);
    forall j | m + q - |piece| <= j < m + q ensures !Occurs(s, sep, j) {
      OccursAfter(s, sep, m, j);
    }
  }

  /** The first piece of a split runs up to the leftmost occurrence (or to the end). */
  lemma {:induction false} FirstPiece(u: string, sep: string)
    requires sep != []
    ensures var seg := Split(u, sep)[0];
      && |seg| <= |u| && u[..|seg|] == seg
      && (|seg| == |u| || Occurs(u, sep, |seg|))
      && forall j :: 0 <= j < |seg| ==> !Occurs(u, sep, j)
  {
    match Find(u, sep)
    case None =>
      assert Split(u, sep) == [u];
    case Some(k) =>
      assert Split(u, sep)[0] == u[..k];
  }

  lemma {:induction false} OccursAfter(s: string, sep: string, m: nat, j: int)
    requires m <= |s| && m <= j
    ensures Occurs(s, sep, j) <==> Occurs(s[m..], sep, j - m)
  {
    if j + |sep| <= |s| {
      assert s[j..j + |sep|] == s[m..][j - m..j - m + |sep|];
    }
  }

  lemma {:induction false} SplitPeelsLeadingSeparator(s: string, sep: string)
    requires sep != [] && StartsWith(s, sep)
    ensures Split(s, sep) == [[]] + Split(s[|sep|..], sep)
  {
    FindLeftmost(s, sep, 0);
    assert Split(s, sep) == [s[..0]] + Split(s[|sep|..], sep);
  }

  /**
   * Splitting a string that starts with the separator: the first piece is
   * empty, and the second is everything after that separator up to the next
   * occurrence found at or after its end (or to the end of the string).
   */
  lemma {:induction false} SplitAfterLeadingSeparator(s: string, sep: string)
    requires sep != [] && StartsWith(s, sep)
    ensures |Split(s, sep)| >= 2
    ensures Split(s, sep)[0] == []
    ensures var seg := Split(s, sep)[1];
      && |sep| + |seg| <= |s|
      && s[|sep|..|sep| + |seg|] == seg
      && (|sep| + |seg| == |s| || Occurs(s, sep, |sep| + |seg|))
      && forall j :: |sep| <= j < |sep| + |seg| ==> !Occurs(s, sep, j)
  {
    var rest := s[|sep|..];
    SplitPeelsLeadingSeparator(s, sep);
    FirstPiece(rest, sep);
    LiftPiece(s, sep, Split(rest, sep)[0]);
  }

  /** Facts about a leading piece of s[|sep|..] restated as facts about s. */
  lemma {:induction false} LiftPiece(s: string, sep: string, seg: string)
    requires |sep| <= |s|
    requires var rest := s[|sep|..];
      && |seg| <= |rest| && rest[..|seg|] == seg
      && (|seg| == |rest| || Occurs(rest, sep, |seg|))
      && forall j :: 0 <= j < |seg| ==> !Occurs(rest, sep, j)
    ensures |sep| + |seg| <= |s|
    ensures s[|sep|..|sep| + |seg|] == seg
    ensures |sep| + |seg| == |s| || Occurs(s, sep, |sep| + |seg|)
    ensures forall j :: |sep| <= j < |sep| + |seg| ==> !Occurs(s, sep, j)
  {
    var n := |sep|;
    assert s[n..n + |seg|] == s[n..][..|seg|];
    OccursAfter(s, sep, n, n + |seg|);
    forall j | n <= j < n + |seg| ensures !Occurs(s, sep, j) {
      OccursAfter(s, sep, n, j);
    }
  }

  /** The decimal digits of a natural number, as str() writes them. */
  function Digits(n: nat): (r: string)
    ensures |r| >= 1 && IsDigits(r)
    ensures |r| > 1 ==> r[0] != '0'
  {
    if n < 10 then [DigitChar(n)] else Digits(n / 10) + [DigitChar(n % 10)]
  }

  function DigitChar(d: nat): (c: char)
    requires d < 10
    ensures '0' <= c <= '9' && (c as int) - ('0' as int) == d
  {
    (('0' as int) + d) as char
  }

  predicate IsDigits(s: string) {
    forall k :: 0 <= k < |s| ==> '0' <= s[k] <= '9'
  }

  /** The value of a string of decimal digits, read most significant first. */
  function DigitsValue(s: string): (n: nat)
    requires IsDigits(s)
  {
    if s == [] then 0 else 10 * DigitsValue(s[..|s| - 1]) + ((s[|s| - 1] as int) - ('0' as int))
  }

  lemma {:induction false} DigitsRoundTrip(n: nat)
    ensures DigitsValue(Digits(n)) == n
  {
    if n >= 10 {
      var d := Digits(n / 10) + [DigitChar(n % 10)];
      assert d[..|d| - 1] == Digits(n / 10);
      DigitsRoundTrip(n / 10);
    }
  }

  /**
   * str(n) for a Python int: an optional minus sign, then the digits, in
   * canonical form (never empty, no leading zero except for 0 itself).
   */
  function IntToStr(n: int): (r: string)
    ensures n >= 0 ==> |r| >= 1 && IsDigits(r) && DigitsValue(r) == n && (|r| > 1 ==> r[0] != '0')
    ensures n < 0 ==> |r| >= 2 && r[0] == '-' && IsDigits(r[1..]) && DigitsValue(r[1..]) == -n && r[1] != '0'
  {
    if n >= 0 then (DigitsRoundTrip(n); Digits(n))
    else (DigitsRoundTrip(-n); var d := Digits(-n); assert (['-'] + d)[1..] == d; ['-'] + d)
  }
}
