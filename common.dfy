/** Vocabulary shared by the backup and fan-control scripts: results, the few
    Python string operations they rely on, Python's ordering of strings, the
    `sorted` builtin, date formatting and `os.path.join`. */
module Common {

  datatype Option<T> = None | Some(value: T)

  datatype Result<T, E> = Ok(value: T) | Err(error: E)

  // ---------------------------------------------------------------- characters

  predicate IsDigit(c: char) { '0' <= c <= '9' }

  predicate AllDigits(s: string) { forall i :: 0 <= i < |s| ==> IsDigit(s[i]) }

  /** The characters `str.split()` and `str.strip()` treat as whitespace
      (the ASCII ones: space, tab, newline, vertical tab, form feed, carriage
      return and the four separator controls). */
  predicate IsSpace(c: char) { c == ' ' || '\t' <= c <= '\r' || 28 <= c as int <= 31 }

  predicate NoSpace(s: string) { forall i :: 0 <= i < |s| ==> !IsSpace(s[i]) }

  /** Drops the leading whitespace of `s`. */
  function TrimStart(s: string): string
  {
    if s != [] && IsSpace(s[0]) then TrimStart(s[1..]) else s
  }

  /** Drops the trailing whitespace of `s`. */
  function TrimEnd(s: string): string
  {
    if s != [] && IsSpace(s[|s| - 1]) then TrimEnd(s[..|s| - 1]) else s
  }

  /** Python's `str.strip()`. */
  function Strip(s: string): string { TrimEnd(TrimStart(s)) }

  /** Length of the longest prefix of `s` made of decimal digits: what a greedy
      `\d+` consumes. */
  function DigitRun(s: string): (n: nat)
    ensures n <= |s|
    ensures AllDigits(s[..n])
    ensures n < |s| ==> !IsDigit(s[n])
  {
    if s == [] || !IsDigit(s[0]) then 0 else 1 + DigitRun(s[1..])
  }

  /** A greedy `\d+` stops exactly where the digits stop. */
  lemma {:induction false} DigitRunOf(d: string, u: string)
    requires AllDigits(d) && (u == [] || !IsDigit(u[0]))
    ensures DigitRun(d + u) == |d|
  {
    if d != [] {
      assert (d + u)[0] == d[0] && (d + u)[1..] == d[1..] + u;
      DigitRunOf(d[1..], u);
    } else {
      assert d + u == u;
    }
  }

  // ---------------------------------------------------------------- substrings

  /** Python's `w in s` on strings. */
  predicate Contains(s: string, w: string)
    decreases |s|
  {
    (|w| <= |s| && s[..|w|] == w) || (|s| > 0 && Contains(s[1..], w))
  }

  /** `w` occurs in `s` starting at offset `i`. */
  predicate OccursAt(s: string, w: string, i: nat)
  {
    i + |w| <= |s| && s[i..i + |w|] == w
  }

  /** `Contains` means what it says: `w` occurs in `s` at some offset. */
  lemma {:induction false} ContainsAt(s: string, w: string)
    ensures Contains(s, w) <==> exists i: nat :: OccursAt(s, w, i)
    decreases |s|
  {
    if |w| <= |s| && s[..|w|] == w {
      assert OccursAt(s, w, 0);
    } else if |s| > 0 {
      ContainsAt(s[1..], w);
      if Contains(s[1..], w) {
        var i: nat :| OccursAt(s[1..], w, i);
        assert s[i + 1..i + 1 + |w|] == s[1..][i..i + |w|];
        assert OccursAt(s, w, i + 1);
      } else {
        forall i: nat | OccursAt(s, w, i) ensures false {
          if i > 0 {
            assert s[i..i + |w|] == s[1..][i - 1..i - 1 + |w|];
            assert OccursAt(s[1..], w, i - 1);
          }
        }
      }
    } else {
      forall i: nat | OccursAt(s, w, i) ensures false { }
    }
  }

  /** A word that begins with a character absent from `p` occurs in `p + s`
      exactly when it occurs in `s`: a fixed command prefix cannot make a
      substring test succeed or fail. */
  lemma {:induction false} ContainsAfterPrefix(p: string, s: string, w: string)
    requires |w| > 0 && w[0] !in p
    ensures Contains(p + s, w) <==> Contains(s, w)
  {
    if p != [] {
      assert (p + s)[0] == p[0] != w[0];
      assert (p + s)[1..] == p[1..] + s;
      ContainsAfterPrefix(p[1..], s, w);
    } else {
      assert p + s == s;
    }
  }

  /** Occurrences survive appending text on either side. */
  lemma ContainsExtend(a: string, s: string, b: string, w: string)
    requires Contains(s, w)
    ensures Contains(a + s + b, w)
  {
    ContainsAt(s, w);
    var i: nat :| OccursAt(s, w, i);
    assert (a + s + b)[|a| + i..|a| + i + |w|] == s[i..i + |w|];
    assert OccursAt(a + s + b, w, |a| + i);
    ContainsAt(a + s + b, w);
  }

  // ---------------------------------------------------------------- ordering

  /** Python's `a < b` on str: lexicographic by code point, a proper prefix
      first. */
  predicate Below(a: string, b: string)
    decreases |a|
  {
    if a == [] then b != []
    else if b == [] then false
    else if a[0] == b[0] then Below(a[1..], b[1..])
    else a[0] < b[0]
  }

  predicate AtMost(a: string, b: string) { a == b || Below(a, b) }

  lemma {:induction false} BelowIrreflexive(a: string)
    ensures !Below(a, a)
  {
    if a != [] { BelowIrreflexive(a[1..]); }
  }

  lemma {:induction false} BelowTransitive(a: string, b: string, c: string)
    requires Below(a, b) && Below(b, c)
    ensures Below(a, c)
    decreases |a|
  {
    if a != [] && b != [] && c != [] && a[0] == b[0] == c[0] {
      BelowTransitive(a[1..], b[1..], c[1..]);
    }
  }

  lemma {:induction false} BelowTotal(a: string, b: string)
    ensures a == b || Below(a, b) || Below(b, a)
    decreases |a|
  {
    if a != [] && b != [] && a[0] == b[0] {
      BelowTotal(a[1..], b[1..]);
      if a[1..] == b[1..] {
        assert a == [a[0]] + a[1..] && b == [b[0]] + b[1..];
      }
    }
  }

  lemma {:induction false} BelowAsymmetric(a: string, b: string)
    requires Below(a, b)
    ensures !Below(b, a)
    decreases |a|
  {
    if a != [] && b != [] && a[0] == b[0] {
      BelowAsymmetric(a[1..], b[1..]);
    }
  }

  lemma AtMostTransitive(a: string, b: string, c: string)
    requires AtMost(a, b) && AtMost(b, c)
    ensures AtMost(a, c)
  {
    if a != b && b != c { BelowTransitive(a, b, c); }
  }

  lemma AtMostAntisymmetric(a: string, b: string)
    requires AtMost(a, b) && AtMost(b, a)
    ensures a == b
  {
    if a != b { BelowAsymmetric(a, b); }
  }

  // ---------------------------------------------------------------- sorting

  predicate Ascending(s: seq<string>)
  {
    forall i, j :: 0 <= i < j < |s| ==> AtMost(s[i], s[j])
  }

  predicate Descending(s: seq<string>)
  {
    forall i, j :: 0 <= i < j < |s| ==> AtMost(s[j], s[i])
  }

  /** Inserts `x` into an ascending sequence, before the first element that is
      not below it. */
  function Insert(x: string, s: seq<string>): (r: seq<string>)
    requires Ascending(s)
    ensures Ascending(r)
    ensures multiset(r) == multiset(s) + multiset{x}
  {
    if s == [] then [x]
    else if AtMost(x, s[0]) then
      assert forall j :: 0 < j < |s| ==> AtMost(x, s[j]) by {
        forall j | 0 < j < |s| ensures AtMost(x, s[j]) { AtMostTransitive(x, s[0], s[j]); }
      }
      [x] + s
    else
      BelowTotal(x, s[0]);
      var t := Insert(x, s[1..]);
      assert s == [s[0]] + s[1..];
      assert forall k :: 0 <= k < |t| ==> AtMost(s[0], t[k]) by {
        forall k | 0 <= k < |t| ensures AtMost(s[0], t[k]) {
          assert t[k] in multiset(t);
          if t[k] != x {
            assert t[k] in multiset(s[1..]);
            var j :| 0 <= j < |s[1..]| && s[1..][j] == t[k];
            assert s[j + 1] == t[k];
          }
        }
      }
      [s[0]] + t
  }

  /** Python's `sorted` on a list of str: the ascending permutation. */
  function Sort(s: seq<string>): (r: seq<string>)
    ensures Ascending(r)
    ensures multiset(r) == multiset(s)
  {
    if s == [] then []
    else
      assert s == s[..|s| - 1] + [s[|s| - 1]];
      Insert(s[|s| - 1], Sort(s[..|s| - 1]))
  }

  /** The head of an ascending sequence is at most each of its elements. */
  lemma HeadIsLeast(a: seq<string>, x: string)
    requires Ascending(a) && x in multiset(a)
    ensures AtMost(a[0], x)
  {
    var j :| 0 <= j < |a| && a[j] == x;
    if j > 0 { assert AtMost(a[0], a[j]); }
  }

  lemma TailMultiset(a: seq<string>)
    requires a != []
    ensures multiset(a[1..]) == multiset(a) - multiset{a[0]}
  {
    assert a == [a[0]] + a[1..];
  }

  /** There is only one ascending arrangement of a multiset of strings, so the
      result of `sorted` does not depend on the order of its input. */
  lemma {:induction false} AscendingUnique(a: seq<string>, b: seq<string>)
    requires Ascending(a) && Ascending(b)
    requires multiset(a) == multiset(b)
    ensures a == b
    decreases |a|
  {
    assert |b| == |a| by { assert |multiset(b)| == |multiset(a)|; }
    if a != [] {
      assert a[0] in multiset(a) && b[0] in multiset(b);
      HeadIsLeast(b, a[0]);
      HeadIsLeast(a, b[0]);
      AtMostAntisymmetric(a[0], b[0]);
      TailMultiset(a);
      TailMultiset(b);
      AscendingUnique(a[1..], b[1..]);
      assert a == [a[0]] + a[1..] && b == [b[0]] + b[1..];
    }
  }

  lemma SortOrderIndependent(s: seq<string>, t: seq<string>)
    requires multiset(s) == multiset(t)
    ensures Sort(s) == Sort(t)
  {
    AscendingUnique(Sort(s), Sort(t));
  }

  function Reverse<T>(s: seq<T>): (r: seq<T>)
    ensures |r| == |s|
    ensures forall i :: 0 <= i < |s| ==> r[i] == s[|s| - 1 - i]
  {
    if s == [] then [] else Reverse(s[1..]) + [s[0]]
  }

  lemma ReverseMultiset<T>(s: seq<T>)
    ensures multiset(Reverse(s)) == multiset(s)
  {
    if s != [] {
      ReverseMultiset(s[1..]);
      assert s == [s[0]] + s[1..];
    }
  }

  /** Python's `sorted(s, reverse=True)` on str: the descending permutation. */
  function SortDescending(s: seq<string>): (r: seq<string>)
    ensures Descending(r)
    ensures multiset(r) == multiset(s)
  {
    var a := Sort(s);
    ReverseMultiset(a);
    Reverse(a)
  }

  // ---------------------------------------------------------------- time

  datatype Date = Date(year: int, month: int, day: int)

  datatype DateTime = DateTime(date: Date, hour: int, minute: int, second: int)

  /** The field ranges Python's `date` guarantees. */
  predicate ValidDate(d: Date) { 1 <= d.year <= 9999 && 1 <= d.month <= 12 && 1 <= d.day <= 31 }

  predicate ValidDateTime(t: DateTime)
  {
    ValidDate(t.date) && 0 <= t.hour < 24 && 0 <= t.minute < 60 && 0 <= t.second < 60
  }

  function DigitChar(d: int): (c: char)
    requires 0 <= d < 10
    ensures IsDigit(c) && c as int - '0' as int == d
  {
    ('0' as int + d) as char
  }

  /** A zero-padded two-digit field, as `%y`, `%m`, `%d`, `%H`, `%M` and `%S`
      print one. */
  function Pad2(n: int): (s: string)
    requires 0 <= n < 100
    ensures |s| == 2 && AllDigits(s)
    ensures (s[0] as int - '0' as int) * 10 + (s[1] as int - '0' as int) == n
  {
    [DigitChar(n / 10), DigitChar(n % 10)]
  }

  /** `strftime("%y%m%d")`. */
  function Yymmdd(d: Date): (s: string)
    requires ValidDate(d)
    ensures |s| == 6 && AllDigits(s)
  {
    Pad2(d.year % 100) + Pad2(d.month) + Pad2(d.day)
  }

  /** `strftime("%H%M%S")`. */
  function Hhmmss(t: DateTime): (s: string)
    requires ValidDateTime(t)
    ensures |s| == 6 && AllDigits(s)
  {
    Pad2(t.hour) + Pad2(t.minute) + Pad2(t.second)
  }

  /** `strftime("%y_%m_%d")`. */
  function YyUnderMmUnderDd(d: Date): (s: string)
    requires ValidDate(d)
    ensures |s| == 8 && s[2] == '_' && s[5] == '_'
    ensures AllDigits(s[..2]) && AllDigits(s[3..5]) && AllDigits(s[6..])
  {
    Pad2(d.year % 100) + "_" + Pad2(d.month) + "_" + Pad2(d.day)
  }

  // ---------------------------------------------------------------- paths

  predicate EndsWith(s: string, t: string) { |t| <= |s| && s[|s| - |t|..] == t }

  /** `os.path.join(a, b)` on POSIX: an absolute `b` replaces `a`; otherwise a
      separator is added unless `a` is empty or already ends in one. */
  function Join(a: string, b: string): (r: string)
    ensures EndsWith(r, b)
    ensures |b| > 0 && b[0] == '/' ==> r == b
    ensures !(|b| > 0 && b[0] == '/') ==> a <= r
    ensures !(|b| > 0 && b[0] == '/') && a != [] ==> |r| > |a| + |b| - 1 && r[|r| - |b| - 1] == '/'
  {
    if |b| > 0 && b[0] == '/' then b
    else if a == [] || a[|a| - 1] == '/' then a + b
    else a + "/" + b
  }
}
