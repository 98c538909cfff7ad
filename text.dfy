/**
 * The few string operations the program takes from Go's standard library
 * (strings.HasPrefix, strings.Contains, strings.Index, strings.Split,
 * strings.ReplaceAll and the %d verb of fmt), written out over seq<char>.
 */
module Text {
  import opened Wrappers

  predicate HasPrefix(s: string, prefix: string)
  {
    |prefix| <= |s| && s[..|prefix|] == prefix
  }

  function DigitChar(d: nat): (c: char)
    requires d < 10
    ensures '0' <= c <= '9'
  {
    "0123456789"[d]
  }

  /** Decimal rendering of a natural number, as `%d` prints it. */
  function Decimal(n: nat): (s: string)
    ensures |s| >= 1
    ensures forall i :: 0 <= i < |s| ==> '0' <= s[i] <= '9'
  {
    if n < 10 then [DigitChar(n)] else Decimal(n / 10) + [DigitChar(n % 10)]
  }

  /** The "Unknown-<n>" rendering every enum's String method falls back to. */
  function UnknownName(n: nat): (s: string)
    ensures HasPrefix(s, "Unknown-")
  {
    "Unknown-" + Decimal(n)
  }

  /** Whether sub occurs in s starting at position i. */
  predicate OccursAt(s: string, sub: string, i: nat)
  {
    i + |sub| <= |s| && s[i..i + |sub|] == sub
  }

  /** The first position at or after i where sub occurs in s. */
  function IndexFrom(s: string, sub: string, i: nat): (r: Option<nat>)
    ensures r.Some? ==> i <= r.value && OccursAt(s, sub, r.value)
    ensures r.Some? ==> forall j :: i <= j < r.value ==> !OccursAt(s, sub, j)
    ensures r.None? ==> forall j :: i <= j ==> !OccursAt(s, sub, j)
    decreases |s| - i
  {
    if i + |sub| > |s| then None
    else if OccursAt(s, sub, i) then Some(i)
    else IndexFrom(s, sub, i + 1)
  }

  /** `strings.Index`: the first position where sub occurs in s. */
  function Index(s: string, sub: string): (r: Option<nat>)
    ensures r.Some? <==> exists j :: OccursAt(s, sub, j)
    ensures r.Some? ==> OccursAt(s, sub, r.value) && forall j :: 0 <= j < r.value ==> !OccursAt(s, sub, j)
  {
    IndexFrom(s, sub, 0)
  }

  /** `strings.Contains`. */
  predicate Contains(s: string, sub: string)
  {
    Index(s, sub).Some?
  }

  /** A one-character string occurs exactly where that character is. */
  lemma ContainsChar(s: string, c: char)
    ensures Contains(s, [c]) <==> c in s
  {
    if c in s {
      var j :| 0 <= j < |s| && s[j] == c;
      assert OccursAt(s, [c], j);
    }
    if Contains(s, [c]) {
      var j := Index(s, [c]).value;
      assert s[j..j + 1] == [c];
      assert s[j] == s[j..j + 1][0] == c;
    }
  }

  /** Before the first occurrence of a character, that character does not appear. */
  lemma NoCharBefore(s: string, c: char, i: nat)
    requires i <= |s| && forall j :: 0 <= j < i ==> !OccursAt(s, [c], j)
    ensures c !in s[..i]
  {
    forall j | 0 <= j < i ensures s[j] != c {
      assert !OccursAt(s, [c], j);
      assert s[j..j + 1] == [s[j]];
    }
  }

  /** Pieces joined back with sep between each two. */
  function Join(pieces: seq<string>, sep: string): string
    requires |pieces| >= 1
  {
    if |pieces| == 1 then pieces[0] else pieces[0] + sep + Join(pieces[1..], sep)
  }

  /**
   * `strings.Split` with a non-empty separator: the text between successive
   * occurrences of sep. The pieces hold no sep, joining them back with sep
   * gives s again, and there are at least two when sep occurs.
   */
  function Split(s: string, sep: string): (r: seq<string>)
    requires |sep| > 0
    ensures |r| >= 1 && Join(r, sep) == s
    ensures forall k :: 0 <= k < |r| ==> !Contains(r[k], sep)
    ensures HasPrefix(s, r[0]) && (|r| == 1 <==> !Contains(s, sep))
    ensures |r| > 1 ==> OccursAt(s, sep, |r[0]|)
    decreases |s|
  {
    match Index(s, sep)
    case None => [s]
    case Some(i) =>
      NoneBefore(s, sep, i);
      var rest := Split(s[i + |sep|..], sep);
      assert s == s[..i] + sep + s[i + |sep|..] by {
        Around(s, sep, i);
      }
      [s[..i]] + rest
  }

  /** An occurrence of sep at i cuts s into what comes before it, sep, and what follows. */
  lemma Around(s: string, sep: string, i: nat)
    requires OccursAt(s, sep, i)
    ensures s == s[..i] + sep + s[i + |sep|..]
  {
    assert s[i..i + |sep|] == sep;
    assert s == s[..i] + s[i..i + |sep|] + s[i + |sep|..];
  }

  /** Splitting text whose first occurrence of sep follows a: a is the first piece and the rest splits on. */
  lemma SplitAfter(a: string, sep: string, b: string)
    requires |sep| > 0 && forall j :: 0 <= j < |a| ==> !OccursAt(a + sep + b, sep, j)
    ensures Split(a + sep + b, sep) == [a] + Split(b, sep)
  {
    var s := a + sep + b;
    assert s[|a|..|a| + |sep|] == sep;
    assert OccursAt(s, sep, |a|);
    var i := Index(s, sep).value;
    assert i == |a|;
    assert s[..i] == a && s[i + |sep|..] == b;
  }

  /** Text with exactly one separator character splits into the pieces before and after it. */
  lemma SplitOnce(a: string, c: char, b: string)
    requires c !in a && c !in b
    ensures Split(a + [c] + b, [c]) == [a, b]
  {
    var s := a + [c] + b;
    forall j | 0 <= j < |a| ensures !OccursAt(s, [c], j) {
      assert s[j..j + 1] == [a[j]];
    }
    SplitAfter(a, [c], b);
    ContainsChar(b, c);
    var r := Split(b, [c]);
    assert |r| == 1 && Join(r, [c]) == r[0];
  }

  /** When sep first occurs in s at i, it does not occur in s[..i]. */
  lemma NoneBefore(s: string, sep: string, i: nat)
    requires |sep| > 0 && i <= |s| && forall j :: 0 <= j < i ==> !OccursAt(s, sep, j)
    ensures !Contains(s[..i], sep)
  {
    forall j: nat ensures !OccursAt(s[..i], sep, j) {
      if j + |sep| <= i {
        assert s[..i][j..j + |sep|] == s[j..j + |sep|];
        assert !OccursAt(s, sep, j);
      }
    }
  }

  /** `strings.ReplaceAll` with a non-empty target: every occurrence of target is replaced by repl, scanning left to right, without overlaps. */
  function ReplaceAll(s: string, target: string, repl: string): (r: string)
    requires |target| > 0
    decreases |s|
  {
    if s == [] then []
    else if HasPrefix(s, target) then repl + ReplaceAll(s[|target|..], target, repl)
    else [s[0]] + ReplaceAll(s[1..], target, repl)
  }

  /** With no occurrence of target, ReplaceAll changes nothing. */
  lemma {:induction false} ReplaceAbsent(s: string, target: string, repl: string)
    requires |target| > 0 && !Contains(s, target)
    ensures ReplaceAll(s, target, repl) == s
    decreases |s|
  {
    if s != [] {
      assert !OccursAt(s, target, 0);
      NoneAfterFirst(s, target);
      ReplaceAbsent(s[1..], target, repl);
    }
  }

  /** Each occurrence of target becomes repl: with target once between two texts free of it, ReplaceAll swaps just that one. */
  lemma {:induction false} ReplaceOne(a: string, target: string, b: string, repl: string)
    requires |target| > 0 && !Contains(a, target) && !Contains(b, target)
    requires forall j :: 0 <= j < |a| ==> !OccursAt(a + target + b, target, j)
    ensures ReplaceAll(a + target + b, target, repl) == a + repl + b
    decreases |a|
  {
    var s := a + target + b;
    if a == [] {
      assert s == target + b && HasPrefix(s, target);
      assert s[|target|..] == b;
      ReplaceAbsent(b, target, repl);
    } else {
      assert !OccursAt(s, target, 0);
      assert s[1..] == a[1..] + target + b;
      NoneAfterFirst(a, target);
      var t := a[1..] + target + b;
      forall j | 0 <= j < |a| - 1 ensures !OccursAt(t, target, j) {
        if j + |target| <= |t| {
          assert t[j..j + |target|] == s[j + 1..j + 1 + |target|];
          assert !OccursAt(s, target, j + 1);
        }
      }
      ReplaceOne(a[1..], target, b, repl);
      assert a == [a[0]] + a[1..];
    }
  }

  /** An occurrence in s[1..] is one in s. */
  lemma NoneAfterFirst(s: string, sub: string)
    requires |s| > 0 && !Contains(s, sub)
    ensures !Contains(s[1..], sub)
  {
    forall j: nat ensures !OccursAt(s[1..], sub, j) {
      if j + |sub| <= |s| - 1 {
        assert s[1..][j..j + |sub|] == s[j + 1..j + 1 + |sub|];
        assert !OccursAt(s, sub, j + 1);
      }
    }
  }
}
