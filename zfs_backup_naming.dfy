/** Properties of snapshot naming and of the snapshot inventory of backup.py:
    how a listing line is tokenised and matched, that the name
    `create_snapshot` makes is the name `get_snapshots` reads back, and what
    the inventory contains. */
module ZfsNaming {
  import opened Common
  import opened ZfsBackup

  // ---------------------------------------------------------------- tokens

  lemma {:induction false} TrimStartShape(s: string)
    ensures var r := TrimStart(s);
      |r| <= |s| && r == s[|s| - |r|..] && (r == [] || !IsSpace(r[0])) &&
      forall i :: 0 <= i < |s| - |r| ==> IsSpace(s[i])
  {
    if s != [] && IsSpace(s[0]) {
      TrimStartShape(s[1..]);
      var r := TrimStart(s[1..]);
      assert TrimStart(s) == r;
      assert s[1..][|s| - 1 - |r|..] == s[|s| - |r|..];
      forall i | 0 <= i < |s| - |r| ensures IsSpace(s[i]) {
        if i > 0 {
          assert s[i] == s[1..][i - 1];
        }
      }
    }
  }

  lemma {:induction false} WordShape(s: string)
    ensures var w := Word(s); w <= s && NoSpace(w) && (|w| == |s| || IsSpace(s[|w|]))
  {
    if s != [] && !IsSpace(s[0]) {
      WordShape(s[1..]);
      var w := Word(s[1..]);
      assert Word(s) == [s[0]] + w;
      assert forall i :: 0 < i < |Word(s)| ==> Word(s)[i] == w[i - 1];
    }
  }

  /** `line.split()[0]` fails exactly on a blank line; otherwise it is a
      non-empty run of non-space characters that follows only whitespace and
      ends the line or is followed by whitespace. */
  lemma FirstTokenShape(line: string)
    ensures FirstToken(line).None? <==> forall i :: 0 <= i < |line| ==> IsSpace(line[i])
    ensures FirstToken(line).Some? ==>
      var t := FirstToken(line).value;
      t != [] && NoSpace(t) &&
      exists k: nat :: OccursAt(line, t, k) && (forall i :: 0 <= i < k ==> IsSpace(line[i])) &&
                       (k + |t| == |line| || IsSpace(line[k + |t|]))
  {
    TrimStartShape(line);
    var r := TrimStart(line);
    if r != [] {
      var k := |line| - |r|;
      assert line[k] == r[0];
      WordShape(r);
      var t := Word(r);
      assert t != [] by { assert !IsSpace(r[0]); }
      assert line[k..k + |t|] == r[..|t|];
      assert OccursAt(line, t, k);
      assert k + |t| == |line| || line[k + |t|] == r[|t|];
    }
  }

  lemma {:induction false} WordOf(tok: string, rest: string)
    requires NoSpace(tok) && (rest == [] || IsSpace(rest[0]))
    ensures Word(tok + rest) == tok
  {
    if tok != [] {
      assert (tok + rest)[0] == tok[0] && (tok + rest)[1..] == tok[1..] + rest;
      WordOf(tok[1..], rest);
      assert tok == [tok[0]] + tok[1..];
    } else {
      assert tok + rest == rest;
    }
  }

  /** A line that begins with a token reads back as that token. */
  lemma FirstTokenOf(tok: string, rest: string)
    requires tok != [] && NoSpace(tok) && (rest == [] || IsSpace(rest[0]))
    ensures FirstToken(tok + rest) == Some(tok)
  {
    assert (tok + rest)[0] == tok[0];
    assert TrimStart(tok + rest) == tok + rest;
    WordOf(tok, rest);
  }

  // ---------------------------------------------------------------- the pattern

  /** What greedy matching of `\d+_\d+` finds: a stamp that the digits
      end. */
  lemma StampLengthShape(s: string)
    ensures var m := StampLength(s); m.Some? ==> IsStamp(s[..m.value]) && (m.value == |s| || !IsDigit(s[m.value]))
  {
    var n1 := DigitRun(s);
    if n1 != 0 && n1 != |s| && s[n1] == '_' {
      var n2 := DigitRun(s[n1 + 1..]);
      if n2 != 0 {
        var m := n1 + 1 + n2;
        DigitRunOf(s[..n1], s[n1..m]);
        assert s[..n1] + s[n1..m] == s[..m];
        assert s[..m][n1 + 1..] == s[n1 + 1..][..n2];
        assert m == |s| || s[m] == s[n1 + 1..][n2];
      }
    }
  }

  /** ... and it finds every stamp that is not followed by a digit. */
  lemma StampLengthAccepts(t: string, tail: string)
    requires IsStamp(t) && (tail == [] || !IsDigit(tail[0]))
    ensures StampLength(t + tail) == Some(|t|)
  {
    var n1 := DigitRun(t);
    var s := t + tail;
    DigitRunOf(t[..n1], t[n1..] + tail);
    assert t[..n1] + (t[n1..] + tail) == s;
    assert s[n1] == '_';
    var d2 := t[n1 + 1..];
    assert s[n1 + 1..] == d2 + tail;
    DigitRunOf(d2, tail);
  }

  /** What a match means: the captured name has the `<prefix>_<digits>_<digits>`
      shape, the token starts with `<ds>@<name>`, and the digits stop where
      the name stops (greediness); anything may follow. */
  lemma SnapMatchShape(ds: string, prefix: string, token: string)
    ensures var g := SnapMatch(ds, prefix, token);
      g.Some? ==> IsSnapName(prefix, g.value) && ds + "@" + g.value <= token &&
                  var end := |ds| + 1 + |g.value|; end == |token| || !IsDigit(token[end])
  {
    var head := ds + "@" + prefix + "_";
    if |token| >= |head| && token[..|head|] == head {
      var rest := token[|head|..];
      StampLengthShape(rest);
      var m := StampLength(rest);
      if m.Some? {
        var stamp := rest[..m.value];
        assert token[|head|..|head| + m.value] == stamp;
        assert SnapMatch(ds, prefix, token) == Some(prefix + "_" + stamp);
        SnapNameFromStamp(ds, prefix, token, head, m.value);
      }
    }
  }

  /** The name built from the stamp after `<ds>@<prefix>_` is a snapshot
      name that the token starts with, followed by no digit. */
  lemma SnapNameFromStamp(ds: string, prefix: string, token: string, head: string, m: nat)
    requires head == ds + "@" + prefix + "_" && head <= token && |head| + m <= |token|
    requires IsStamp(token[|head|..][..m])
    requires m == |token[|head|..]| || !IsDigit(token[|head|..][m])
    ensures var g := prefix + "_" + token[|head|..][..m];
      IsSnapName(prefix, g) && ds + "@" + g <= token &&
      (|ds| + 1 + |g| == |token| || !IsDigit(token[|ds| + 1 + |g|]))
  {
    var stamp := token[|head|..][..m];
    var g := prefix + "_" + stamp;
    NameParts(prefix, stamp);
    HeadThenStamp(token, head, m);
    assert ds + "@" + g == head + stamp;
  }

  /** A prefix, '_' and a stamp make a snapshot name. */
  lemma NameParts(prefix: string, stamp: string)
    requires IsStamp(stamp)
    ensures IsSnapName(prefix, prefix + "_" + stamp)
  {
    var g := prefix + "_" + stamp;
    assert g[..|prefix| + 1] == prefix + "_" && g[|prefix| + 1..] == stamp;
  }

  /** A token that starts with `head` is `head`, then the next `m`
      characters, then the rest. */
  lemma HeadThenStamp(token: string, head: string, m: nat)
    requires head <= token && |head| + m <= |token|
    ensures token[..|head| + m] == head + token[|head|..][..m]
    ensures |head| + m == |token| || token[|head| + m] == token[|head|..][m]
  {
    assert token[..|head| + m] == token[..|head|] + token[|head|..][..m];
  }


  /** The converse: a token `<ds>@<name><tail>` with a well-formed `name` and
      a tail that does not continue its digits is matched, and the capture is
      exactly `name`. */
  lemma SnapMatchAccepts(ds: string, prefix: string, name: string, tail: string)
    requires IsSnapName(prefix, name)
    requires tail == [] || !IsDigit(tail[0])
    ensures SnapMatch(ds, prefix, ds + "@" + name + tail) == Some(name)
  {
    var token := ds + "@" + name + tail;
    var head := ds + "@" + prefix + "_";
    var t := name[|prefix| + 1..];
    assert name == (prefix + "_") + t;
    assert token == head + (t + tail);
    assert token[..|head|] == head && token[|head|..] == t + tail;
    StampLengthAccepts(t, tail);
    assert token[|head|..|head| + |t|] == t;
  }

  /** A line `<ds>@<name><tail><rest>` yields `name` when the tail does not
      continue the digits and the token ends at `rest`. */
  lemma LineYields(ds: string, prefix: string, name: string, tail: string, rest: string)
    requires IsSnapName(prefix, name)
    requires NoSpace(ds) && NoSpace(name) && NoSpace(tail)
    requires tail == [] || !IsDigit(tail[0])
    requires rest == [] || IsSpace(rest[0])
    ensures FirstToken(ds + "@" + name + tail + rest) == Some(ds + "@" + name + tail)
    ensures SnapMatch(ds, prefix, ds + "@" + name + tail) == Some(name)
  {
    var tok := ds + "@" + name + tail;
    forall i | 0 <= i < |tok| ensures !IsSpace(tok[i]) {
      if i < |ds| { assert tok[i] == ds[i]; }
      else if i > |ds| && i <= |ds| + |name| { assert tok[i] == name[i - |ds| - 1]; }
      else if i > |ds| + |name| { assert tok[i] == tail[i - |ds| - 1 - |name|]; }
    }
    FirstTokenOf(tok, rest);
    SnapMatchAccepts(ds, prefix, name, tail);
  }

  lemma SingleLine(ds: string, prefix: string, line: string, x: string)
    requires FirstToken(line).Some? && SnapMatch(ds, prefix, FirstToken(line).value) == Some(x)
    ensures ParseListing(ds, prefix, [line]) == Ok([x])
  {
    assert [line][1..] == [];
    assert [x] + [] == [x];
  }

  /** `create_snapshot`'s names are well formed and 14 characters longer than
      the prefix. */
  lemma SnapshotNameShape(prefix: string, now: DateTime)
    requires ValidDateTime(now)
    ensures IsSnapName(prefix, SnapshotName(prefix, now))
    ensures |SnapshotName(prefix, now)| == |prefix| + 14
  {
    var d := Yymmdd(now.date);
    var t := Hhmmss(now);
    var name := SnapshotName(prefix, now);
    assert name == (prefix + "_") + (d + "_" + t);
    var u := name[|prefix + "_"|..];
    assert u == d + ("_" + t);
    DigitRunOf(d, "_" + t);
    assert u[7..] == t;
  }

  lemma SnapshotNameNoSpace(prefix: string, now: DateTime)
    requires ValidDateTime(now) && NoSpace(prefix)
    ensures NoSpace(SnapshotName(prefix, now))
  {
    var d := Yymmdd(now.date);
    var t := Hhmmss(now);
    var name := SnapshotName(prefix, now);
    forall i | 0 <= i < |name| ensures !IsSpace(name[i]) {
      if i < |prefix| { assert name[i] == prefix[i]; }
      else if i == |prefix| || i == |prefix| + 7 { }
      else if i < |prefix| + 7 { assert name[i] == d[i - |prefix| - 1]; }
      else { assert name[i] == t[i - |prefix| - 8]; }
    }
  }

  /** Naming round trip: the listing line of the snapshot `create_snapshot`
      took on `ds` is read back by `get_snapshots` for the same prefix as
      exactly that name, provided the dataset and prefix contain no
      whitespace. */
  lemma NameRoundTrip(ds: string, prefix: string, now: DateTime, rest: string)
    requires ValidDateTime(now)
    requires NoSpace(ds) && NoSpace(prefix)
    requires rest == [] || IsSpace(rest[0])
    ensures ParseListing(ds, prefix, [ds + "@" + SnapshotName(prefix, now) + rest])
         == Ok([SnapshotName(prefix, now)])
  {
    var name := SnapshotName(prefix, now);
    SnapshotNameShape(prefix, now);
    SnapshotNameNoSpace(prefix, now);
    LineYields(ds, prefix, name, [], rest);
    assert ds + "@" + name + [] == ds + "@" + name;
    SingleLine(ds, prefix, ds + "@" + name + rest, name);
  }

  // ---------------------------------------------------------------- the inventory

  /** Line `line` contributes `x` to the inventory of `ds`. */
  predicate Yields(ds: string, prefix: string, line: string, x: string)
  {
    FirstToken(line).Some? && SnapMatch(ds, prefix, FirstToken(line).value) == Some(x)
  }

  predicate Blank(line: string) { FirstToken(line).None? }

  /** The listing loop fails exactly when some line is blank; otherwise its
      names are exactly those the lines yield, every one well formed. */
  lemma ParseListingMeaning(ds: string, prefix: string, lines: seq<string>)
    ensures ParseListing(ds, prefix, lines).Err? <==> exists i :: 0 <= i < |lines| && Blank(lines[i])
    ensures ParseListing(ds, prefix, lines).Err? ==> ParseListing(ds, prefix, lines).error == IndexError
    ensures ParseListing(ds, prefix, lines).Ok? ==>
      var names := ParseListing(ds, prefix, lines).value;
      (forall k :: 0 <= k < |names| ==> IsSnapName(prefix, names[k])) &&
      forall x :: x in names <==> exists i :: 0 <= i < |lines| && Yields(ds, prefix, lines[i], x)
  {
    ParseListingFails(ds, prefix, lines);
    ParseListingNames(ds, prefix, lines);
    ParseListingYields(ds, prefix, lines);
  }

  lemma {:induction false} ParseListingFails(ds: string, prefix: string, lines: seq<string>)
    ensures ParseListing(ds, prefix, lines).Err? <==> exists i :: 0 <= i < |lines| && Blank(lines[i])
    ensures ParseListing(ds, prefix, lines).Err? ==> ParseListing(ds, prefix, lines).error == IndexError
  {
    if lines != [] {
      ParseListingFails(ds, prefix, lines[1..]);
      if exists i :: 0 <= i < |lines[1..]| && Blank(lines[1..][i]) {
        var i :| 0 <= i < |lines[1..]| && Blank(lines[1..][i]);
        assert Blank(lines[i + 1]);
      }
      if exists i :: 0 <= i < |lines| && Blank(lines[i]) {
        var i :| 0 <= i < |lines| && Blank(lines[i]);
        if i > 0 { assert Blank(lines[1..][i - 1]); }
      }
    }
  }

  predicate AllSnapNames(prefix: string, names: seq<string>)
  {
    forall k :: 0 <= k < |names| ==> IsSnapName(prefix, names[k])
  }

  lemma {:induction false} ParseListingNames(ds: string, prefix: string, lines: seq<string>)
    ensures ParseListing(ds, prefix, lines).Ok? ==> AllSnapNames(prefix, ParseListing(ds, prefix, lines).value)
  {
    if lines != [] && FirstToken(lines[0]).Some? {
      ParseListingNames(ds, prefix, lines[1..]);
      var t := FirstToken(lines[0]).value;
      var g := SnapMatch(ds, prefix, t);
      SnapMatchShape(ds, prefix, t);
      var r := ParseListing(ds, prefix, lines[1..]);
      if r.Ok? {
        assert ParseListing(ds, prefix, lines).value == Found(g) + r.value;
        AllSnapNamesConcat(prefix, Found(g), r.value);
      }
    }
  }

  lemma AllSnapNamesConcat(prefix: string, a: seq<string>, b: seq<string>)
    requires AllSnapNames(prefix, a) && AllSnapNames(prefix, b)
    ensures AllSnapNames(prefix, a + b)
  {
    assert forall k :: |a| <= k < |a + b| ==> (a + b)[k] == b[k - |a|];
  }


  /** Some line of `lines` yields `x`. */
  predicate SomeLineYields(ds: string, prefix: string, lines: seq<string>, x: string)
  {
    exists i :: 0 <= i < |lines| && Yields(ds, prefix, lines[i], x)
  }

  lemma SomeLineStep(ds: string, prefix: string, lines: seq<string>, x: string)
    requires lines != []
    ensures SomeLineYields(ds, prefix, lines, x) <==>
      Yields(ds, prefix, lines[0], x) || SomeLineYields(ds, prefix, lines[1..], x)
  {
    if SomeLineYields(ds, prefix, lines, x) {
      var i :| 0 <= i < |lines| && Yields(ds, prefix, lines[i], x);
      if i > 0 { assert lines[1..][i - 1] == lines[i]; }
    }
    if SomeLineYields(ds, prefix, lines[1..], x) {
      var i :| 0 <= i < |lines[1..]| && Yields(ds, prefix, lines[1..][i], x);
      assert lines[i + 1] == lines[1..][i];
    }
  }

  lemma {:induction false} ParseListingYields(ds: string, prefix: string, lines: seq<string>)
    ensures ParseListing(ds, prefix, lines).Ok? ==>
      forall x :: x in ParseListing(ds, prefix, lines).value <==> SomeLineYields(ds, prefix, lines, x)
  {
    if lines != [] && FirstToken(lines[0]).Some? {
      ParseListingYields(ds, prefix, lines[1..]);
      var t := FirstToken(lines[0]).value;
      var g := SnapMatch(ds, prefix, t);
      var r := ParseListing(ds, prefix, lines[1..]);
      if r.Ok? {
        var names := ParseListing(ds, prefix, lines).value;
        assert names == Found(g) + r.value;
        forall x ensures x in names <==> SomeLineYields(ds, prefix, lines, x) {
          SomeLineStep(ds, prefix, lines, x);
          assert x in names <==> g == Some(x) || x in r.value;
        }
      }
    }
  }



  /** Joins the results of two consecutive stretches of the listing. */
  function Concat(a: Result<seq<string>, Error>, b: Result<seq<string>, Error>): Result<seq<string>, Error>
  {
    if a.Err? then a else if b.Err? then b else Ok(a.value + b.value)
  }

  lemma {:induction false} ParseListingConcat(ds: string, prefix: string, a: seq<string>, b: seq<string>)
    ensures ParseListing(ds, prefix, a + b) == Concat(ParseListing(ds, prefix, a), ParseListing(ds, prefix, b))
  {
    if a == [] {
      assert a + b == b;
      if ParseListing(ds, prefix, b).Ok? {
        assert [] + ParseListing(ds, prefix, b).value == ParseListing(ds, prefix, b).value;
      }
    } else {
      assert (a + b)[0] == a[0] && (a + b)[1..] == a[1..] + b;
      ParseListingConcat(ds, prefix, a[1..], b);
      var t := FirstToken(a[0]);
      if t.Some? {
        var f := Found(SnapMatch(ds, prefix, t.value));
        var x := ParseListing(ds, prefix, a[1..]);
        var y := ParseListing(ds, prefix, b);
        if x.Ok? && y.Ok? {
          assert f + (x.value + y.value) == (f + x.value) + y.value;
        }
      }
    }
  }

  /** Removing one line from a listing takes its contribution out of the
      multiset of names. */
  lemma ParseListingSplit(ds: string, prefix: string, a: seq<string>, x: string, b: seq<string>)
    requires ParseListing(ds, prefix, a + [x] + b).Ok?
    ensures ParseListing(ds, prefix, a + b).Ok? && ParseListing(ds, prefix, [x]).Ok?
    ensures multiset(ParseListing(ds, prefix, a + [x] + b).value)
         == multiset(ParseListing(ds, prefix, a + b).value) + multiset(ParseListing(ds, prefix, [x]).value)
  {
    ParseListingConcat(ds, prefix, a + [x], b);
    ParseListingConcat(ds, prefix, a, [x]);
    ParseListingConcat(ds, prefix, a, b);
  }

  /** A blank line of one listing is a blank line of any reordering. */
  lemma BlankMoves(lines: seq<string>, other: seq<string>)
    requires multiset(lines) == multiset(other)
    requires exists i :: 0 <= i < |lines| && Blank(lines[i])
    ensures exists j :: 0 <= j < |other| && Blank(other[j])
  {
    var i :| 0 <= i < |lines| && Blank(lines[i]);
    assert lines[i] in multiset(other);
    var j :| 0 <= j < |other| && other[j] == lines[i];
    assert Blank(other[j]);
  }

  /** Whether the listing loop fails does not depend on the order of lines. */
  lemma ParseListingFailsAlike(ds: string, prefix: string, lines: seq<string>, other: seq<string>)
    requires multiset(lines) == multiset(other)
    ensures ParseListing(ds, prefix, lines).Ok? <==> ParseListing(ds, prefix, other).Ok?
  {
    ParseListingMeaning(ds, prefix, lines);
    ParseListingMeaning(ds, prefix, other);
    if exists i :: 0 <= i < |lines| && Blank(lines[i]) {
      BlankMoves(lines, other);
    }
    if exists j :: 0 <= j < |other| && Blank(other[j]) {
      BlankMoves(other, lines);
    }
  }

  /** Taking the first line of a listing out of it and a matching line out of
      a reordering leaves reorderings of each other. */
  lemma RemoveMatching(lines: seq<string>, other: seq<string>, j: nat)
    requires multiset(lines) == multiset(other)
    requires lines != [] && j < |other| && other[j] == lines[0]
    ensures other == other[..j] + [lines[0]] + other[j + 1..]
    ensures multiset(lines[1..]) == multiset(other[..j] + other[j + 1..])
  {
    var x, tail, a, b := lines[0], lines[1..], other[..j], other[j + 1..];
    assert lines == [x] + tail;
    assert other == a + [x] + b;
    assert multiset(lines) == multiset([x]) + multiset(tail);
    assert multiset(a + [x] + b) == multiset(a + [x]) + multiset(b);
    assert multiset(a + [x]) == multiset(a) + multiset([x]);
    assert multiset(a + b) == multiset(a) + multiset(b);
    forall y ensures multiset(tail)[y] == multiset(a + b)[y] {
      assert multiset(lines)[y] == multiset(other)[y];
    }
  }

  /** The names read from a listing, as a multiset, do not depend on the order
      of its lines; with `sorted` this makes the inventory independent of the
      listing order. */
  lemma {:induction false} ParseListingPermutation(ds: string, prefix: string, lines: seq<string>, other: seq<string>)
    requires multiset(lines) == multiset(other)
    ensures ParseListing(ds, prefix, lines).Ok? <==> ParseListing(ds, prefix, other).Ok?
    ensures ParseListing(ds, prefix, lines).Ok? ==>
      multiset(ParseListing(ds, prefix, lines).value) == multiset(ParseListing(ds, prefix, other).value)
    decreases |lines|
  {
    ParseListingFailsAlike(ds, prefix, lines, other);
    if lines != [] && ParseListing(ds, prefix, lines).Ok? {
      var x, tail := lines[0], lines[1..];
      assert lines == [x] + tail;
      assert x in multiset(other);
      var j :| 0 <= j < |other| && other[j] == x;
      var a, b := other[..j], other[j + 1..];
      RemoveMatching(lines, other, j);
      ParseListingConcat(ds, prefix, [x], tail);
      ParseListingPermutation(ds, prefix, tail, a + b);
      ParseListingSplit(ds, prefix, a, x, b);
      var px, pt := ParseListing(ds, prefix, [x]).value, ParseListing(ds, prefix, tail).value;
      assert ParseListing(ds, prefix, lines).value == px + pt;
      assert multiset(px + pt) == multiset(px) + multiset(pt);
    } else if lines == [] {
      assert other == [] by { assert |multiset(other)| == 0; }
    }
  }

  /** `get_snapshots` sorts its names ascending, and reordering the listing
      lines does not change the inventory. */
  lemma InventoryOrderIndependent(ds: string, prefix: string, lines: seq<string>, other: seq<string>)
    requires multiset(lines) == multiset(other)
    requires ParseListing(ds, prefix, lines).Ok?
    ensures ParseListing(ds, prefix, other).Ok?
    ensures Sort(ParseListing(ds, prefix, lines).value) == Sort(ParseListing(ds, prefix, other).value)
    ensures Ascending(Sort(ParseListing(ds, prefix, lines).value))
  {
    ParseListingPermutation(ds, prefix, lines, other);
    SortOrderIndependent(ParseListing(ds, prefix, lines).value, ParseListing(ds, prefix, other).value);
  }

  /** Two listing lines whose tokens differ only after the digits yield the
      same name twice: the pattern is anchored at the start only. */
  lemma TwoLines(ds: string, prefix: string, l0: string, l1: string, x0: string, x1: string)
    requires Yields(ds, prefix, l0, x0) && Yields(ds, prefix, l1, x1)
    ensures ParseListing(ds, prefix, [l0, l1]) == Ok([x0, x1])
  {
    SingleLine(ds, prefix, l0, x0);
    SingleLine(ds, prefix, l1, x1);
    ParseListingConcat(ds, prefix, [l0], [l1]);
    assert [l0] + [l1] == [l0, l1];
    assert [x0] + [x1] == [x0, x1];
  }

  lemma DuplicateFromUnanchoredEnd(ds: string, prefix: string, name: string)
    requires IsSnapName(prefix, name) && NoSpace(ds) && NoSpace(name)
    ensures ParseListing(ds, prefix, [ds + "@" + name, ds + "@" + name + "x"]) == Ok([name, name])
  {
    var l0 := ds + "@" + name;
    var l1 := ds + "@" + name + "x";
    LineYields(ds, prefix, name, [], []);
    assert ds + "@" + name + [] + [] == l0 && ds + "@" + name + [] == l0;
    assert Yields(ds, prefix, l0, name);
    LineYields(ds, prefix, name, "x", []);
    assert l1 + [] == l1;
    assert Yields(ds, prefix, l1, name);
    TwoLines(ds, prefix, l0, l1, name, name);
  }
}
