/** What the parsers of security.c accept, said without them: lines, records, numbers, sessions. */
module Parsing {
  import opened Layout
  import opened Text

  // ---- one line

  // A line with two colons, split at the first two, and its last field at the end of the line: it
  // is a record exactly when each field has less than 16 bytes.
  lemma ParseSplit(a: Str, b: Str, n: Str, rest: Str)
    requires 58 !in a && 58 !in b && 10 !in n && (rest == [] || rest[0] == 10)
    ensures ParseLine(a + [58] + b + [58] + n + rest)
      == if |a| < 16 && |b| < 16 && |n| < 16 then Parsed(User(a, b, Atoi(n))) else Malformed
  {
    hide Index, Atoi;
    var tail := n + rest;
    var more := b + [COLON] + tail;
    var line := a + [COLON] + more;
    assert a + [58] + b + [58] + n + rest == line;
    IndexField(line, a, COLON, more);
    IndexField(more, b, COLON, tail);
    IndexTail(tail, n, rest);
  }

  // At most one colon.
  ghost predicate NoPair(line: Str) {
    forall i, j :: 0 <= i < j < |line| ==> line[i] != 58 || line[j] != 58
  }

  // A line with at most one colon is no record.
  lemma ParseNoPair(line: Str)
    requires NoPair(line)
    ensures ParseLine(line) == Malformed
  {
    var p := Index(line, COLON);
    if p < |line| {
      var rest := line[p + 1..];
      var k := Index(rest, COLON);
      if k < |rest| {
        assert false;
      }
    }
  }

  ghost predicate Split(line: Str, a: Str, b: Str, n: Str, rest: Str) {
    && line == a + [58] + b + [58] + n + rest
    && 58 !in a && 58 !in b && 10 !in n && (rest == [] || rest[0] == 10)
  }

  lemma CutAt(s: Str, c: Byte) returns (f: Str, r: Str)
    requires c in s
    ensures s == f + [c] + r && c !in f
  {
    var k := Index(s, c);
    f, r := s[..k], s[k + 1..];
  }

  // Every line is of one of the two kinds.
  lemma SplitLine(line: Str) returns (a: Str, b: Str, n: Str, rest: Str)
    ensures NoPair(line) || Split(line, a, b, n, rest)
  {
    a, b, n, rest := [], [], [], [];
    if !NoPair(line) {
      var i, j :| 0 <= i < j < |line| && line[i] == 58 && line[j] == 58;
      var more, tail;
      a, more := CutAt(line, 58);
      assert line == a + ([58] + more) && line[|a|] == 58;
      assert |a| <= i;
      assert more[j - |a| - 1] == line[j];
      b, tail := CutAt(more, 58);
      n, rest := LineEnd(tail);
      assert a + [58] + b + [58] + n + rest == line;
    }
  }

  lemma LineEnd(s: Str) returns (n: Str, rest: Str)
    ensures s == n + rest && 10 !in n && (rest == [] || rest[0] == 10)
  {
    var k := Index(s, 10);
    n, rest := s[..k], s[k..];
  }

  // A line without a newline that is a record has at most 47 bytes, so cutting lines to 255 bytes
  // makes no difference.
  lemma ClipParses(line: Str)
    requires 10 !in line
    ensures ParseLine(Clip(line, 255)) == ParseLine(line)
  {
    hide ParseLine;
    if |line| > 255 {
      LongLine(line);
      assert forall i :: 0 <= i < 255 ==> line[..255][i] == line[i] && line[i] in line;
      LongLine(line[..255]);
    }
  }

  lemma LongLine(line: Str)
    requires 10 !in line && |line| > 47
    ensures ParseLine(line) == Malformed
  {
    hide ParseLine, Atoi;
    var a, b, n, rest := SplitLine(line);
    if NoPair(line) {
      ParseNoPair(line);
    } else {
      ParseSplit(a, b, n, rest);
    }
  }

  // ---- many lines

  // The lines of a text that ends a line, and of what follows it.
  lemma {:induction false} LinesSplit(a: Str, b: Str)
    requires a == [] || a[|a| - 1] == 10
    ensures Lines(a + b) == Lines(a) + Lines(b)
    decreases |a|
  {
    hide Index, Lines;
    if a == [] {
      assert a + b == b;
      NoLines();
      assert Lines([]) + Lines(b) == Lines(b);
    } else {
      var line, rest := CutAt(a, 10);
      LinesStep(line, rest);
      LinesStep(line, rest + b);
      assert a + b == line + [10] + (rest + b);
      assert rest != [] ==> rest[|rest| - 1] == a[|a| - 1];
      LinesSplit(rest, b);
      assert [Clip(line, 255)] + (Lines(rest) + Lines(b)) == ([Clip(line, 255)] + Lines(rest)) + Lines(b);
    }
  }

  lemma LinesStep(line: Str, rest: Str)
    requires 10 !in line
    ensures Lines(line + [10] + rest) == [Clip(line, 255)] + Lines(rest)
  {
    hide Index;
    var s := line + [10] + rest;
    IndexIs(s, NEWLINE, |line|);
    assert s[..|line|] == line && s[|line| + 1..] == rest;
  }

  lemma {:induction false} ParseAllSplit(a: seq<Str>, b: seq<Str>)
    ensures ParseAll(a + b) == ParseAll(a) + ParseAll(b)
  {
    hide ParseLine;
    if a == [] {
      assert a + b == b;
    } else {
      assert (a + b)[1..] == a[1..] + b;
      ParseAllSplit(a[1..], b);
    }
  }

  // The records of a text that ends a line, and then those of what follows it.
  lemma UsersSplit(a: Str, b: Str)
    requires a == [] || a[|a| - 1] == 10
    ensures Users(a + b) == Users(a) + Users(b)
  {
    hide Lines, ParseAll;
    LinesSplit(a, b);
    ParseAllSplit(Lines(a), Lines(b));
  }

  // The record of a line, or none.
  function Record(line: Str): seq<User> {
    if ParseLine(line).Parsed? then [ParseLine(line).user] else []
  }

  lemma UsersOfLine(line: Str)
    requires 10 !in line
    ensures Users(line) == Record(line) && Users(line + [10]) == Record(line)
  {
    hide ParseLine, Index;
    ClipParses(line);
    IndexIs(line, NEWLINE, |line|);
    IndexIs(line + [10], NEWLINE, |line|);
    assert (line + [10])[..|line|] == line && (line + [10])[|line| + 1..] == [];
    assert [Clip(line, 255)][1..] == [];
    assert Clip([], 255) == [] && ([Clip(line, 255)] + Lines([]))[1..] == [];
    assert Lines([]) == [] && ParseAll([]) == [];
    if line == [] {
      ParseNoPair([]);
    }
  }

  // A line contributes its record, whatever stands before and after it; a malformed one nothing.
  lemma LineCounts(a: Str, line: Str, b: Str)
    requires (a == [] || a[|a| - 1] == 10) && 10 !in line
    ensures Users(a + (line + [10]) + b) == Users(a) + Record(line) + Users(b)
    ensures Users(a + line) == Users(a) + Record(line)
    ensures ParseLine(line) == Malformed ==> Users(a + (line + [10]) + b) == Users(a + b) && Users(a + line) == Users(a)
  {
    hide Users, ParseLine;
    UsersOfLine(line);
    UsersSplit(a, line + [10] + b);
    UsersSplit(line + [10], b);
    UsersSplit(a, line);
    UsersSplit(a, b);
    assert a + (line + [10]) + b == a + (line + [10] + b);
  }

  // A line with at most one colon, or with a field of 16 bytes or more, is as if it were not there.
  lemma BadLineSkipped(a: Str, line: Str, b: Str)
    requires (a == [] || a[|a| - 1] == 10) && 10 !in line
    requires NoPair(line) || exists x, y, n {:trigger LongField(x, y, n)} ::
      LongField(x, y, n) && line == x + [58] + y + [58] + n
    ensures Users(a + (line + [10]) + b) == Users(a + b) && Users(a + line) == Users(a)
  {
    hide Users, ParseLine;
    if x, y, n {:trigger LongField(x, y, n)} :| LongField(x, y, n) && line == x + [58] + y + [58] + n {
      NoNewline(x + [58] + y + [58], n);
      ParseSplit(x, y, n, []);
      assert x + [58] + y + [58] + n + [] == line;
    } else {
      ParseNoPair(line);
    }
    LineCounts(a, line, b);
  }

  ghost predicate LongField(x: Str, y: Str, n: Str) {
    58 !in x && 58 !in y && (|x| >= 16 || |y| >= 16 || |n| >= 16)
  }

  lemma NoNewline(a: Str, b: Str)
    ensures 10 !in a + b ==> 10 !in b
  {
    assert forall i :: 0 <= i < |b| ==> (a + b)[|a| + i] == b[i];
  }

  // ---- numbers

  // Numbers are printed in base 10, the highest digit first.
  lemma {:induction false} DigitsDecimal(n: nat, d: nat)
    requires d < 10
    ensures Digits(d) == [48 + d] && (n > 0 ==> Digits(10 * n + d) == Digits(n) + [48 + d])
  {
    assert (10 * n + d) / 10 == n && (10 * n + d) % 10 == d;
  }

  ghost predicate Spaces(s: Str) {
    forall i :: 0 <= i < |s| ==> s[i] == 32 || 9 <= s[i] <= 13
  }

  // atoi skips spaces, takes a sign and reads the digits up to the first byte that is none.
  lemma {:induction false} AtoiReads(blank: Str, sign: Str, n: nat, r: Str)
    requires Spaces(blank) && sign in {[], [43], [45]} && n < 0x8000_0000 && (r == [] || !(48 <= r[0] <= 57))
    ensures Atoi(blank + (sign + (Digits(n) + r))) == if sign == [45] then -(n as int) else n
    decreases |blank|
  {
    hide Digits, ValueOf;
    var t := Digits(n) + r;
    if blank != [] {
      AtoiReads(blank[1..], sign, n, r);
      assert (blank + (sign + t))[1..] == blank[1..] + (sign + t);
    } else {
      ValueDigits(n, r);
      ValueStops(r, n);
      assert blank + (sign + t) == sign + t;
      assert t[0] == Digits(n)[0];
      if sign == [] {
        assert sign + t == t;
      } else {
        assert (sign + t)[1..] == t;
      }
    }
  }

  // Without a digit behind the spaces and the sign the value is 0.
  lemma {:induction false} AtoiNone(blank: Str, sign: Str, r: Str)
    requires Spaces(blank) && sign in {[], [43], [45]}
    requires r == [] || !(48 <= r[0] <= 57)
    requires sign == [] && r != [] ==> r[0] != 43 && r[0] != 45 && !Spaces(r[..1])
    ensures Atoi(blank + (sign + r)) == 0
    decreases |blank|
  {
    hide ValueOf;
    if blank != [] {
      AtoiNone(blank[1..], sign, r);
      assert (blank + (sign + r))[1..] == blank[1..] + (sign + r);
    } else {
      ValueStops(r, 0);
      assert blank + (sign + r) == sign + r;
      if sign == [] {
        assert sign + r == r;
      } else {
        assert (sign + r)[1..] == r;
      }
    }
  }

  // ---- records

  // Of several records with the pair, the first one gives the uid.
  lemma {:induction false} LoginFirst(us: seq<User>, name: Str, pass: Str, i: nat)
    requires i < |us| && us[i].name == name && us[i].pass == pass
    requires forall j :: 0 <= j < i ==> us[j].name != name || us[j].pass != pass
    ensures Login(us, name, pass) == Parsed(us[i])
  {
    if i > 0 {
      assert us[0].name != name || us[0].pass != pass;
      LoginFirst(us[1..], name, pass, i - 1);
    }
  }

  // The greatest uid of the records, at least 0.
  lemma {:induction false} MaxUidIs(us: seq<User>, m: int)
    requires forall i :: 0 <= i < |us| ==> us[i].uid <= m
    requires m == 0 || exists i :: 0 <= i < |us| && us[i].uid == m
    requires m >= 0
    ensures MaxUid(us) == m
  {
    MaxUidUpTo(us, m);
  }

  lemma {:induction false} MaxUidUpTo(us: seq<User>, m: int)
    requires m >= 0 && forall i :: 0 <= i < |us| ==> us[i].uid <= m
    ensures MaxUid(us) <= m
  {
    if us != [] {
      MaxUidUpTo(us[1..], m);
    }
  }

  // ---- the session

  ghost predicate Occurs(s: Str, pat: Str, k: nat) {
    k <= |s| && pat <= s[k..]
  }

  lemma {:induction false} FindNone(s: Str, pat: Str)
    requires pat != [] && forall k: nat :: !Occurs(s, pat, k)
    ensures Find(s, pat) == |s|
  {
    NotHere(s, pat);
    if s != [] {
      hide Occurs;
      forall k: nat
        ensures !Occurs(s[1..], pat, k)
      {
        OccursNext(s, pat, k);
      }
      FindNone(s[1..], pat);
    }
  }

  lemma OccursNext(s: Str, pat: Str, k: nat)
    requires s != []
    ensures Occurs(s[1..], pat, k) ==> Occurs(s, pat, k + 1)
  {
    if k <= |s[1..]| {
      assert s[1..][k..] == s[k + 1..];
    }
  }

  lemma NotHere(s: Str, pat: Str)
    ensures Occurs(s, pat, 0) <==> pat <= s
  {
    assert s[0..] == s;
  }

  lemma FindFirst(s: Str, pat: Str, k: nat)
    requires pat != [] && Occurs(s, pat, k) && forall i: nat :: i < k ==> !Occurs(s, pat, i)
    ensures Find(s, pat) == k && k + |pat| <= |s|
  {
    forall i | 0 <= i < k
      ensures !(pat <= s[i..])
    {
      assert !Occurs(s, pat, i);
    }
    FindIs(s, pat, k);
  }

  // Without "user:" there is no user, without "uid:" the uid is 0.
  lemma SessionWithout(buf: Str)
    ensures (forall k: nat :: !Occurs(buf, [117, 115, 101, 114, 58], k)) ==> ParseSession(buf).user == []
    ensures (forall k: nat :: !Occurs(buf, [117, 105, 100, 58], k)) ==> ParseSession(buf).uid == 0
  {
    hide Find, Atoi, Index, Occurs;
    if forall k: nat :: !Occurs(buf, [117, 115, 101, 114, 58], k) {
      FindNone(buf, USER_KEY);
    }
    if forall k: nat :: !Occurs(buf, [117, 105, 100, 58], k) {
      FindNone(buf, UID_KEY);
    }
  }

  // The first occurrence of a text.
  ghost predicate First(s: Str, pat: Str, k: nat) {
    Occurs(s, pat, k) && forall i: nat :: i < k ==> !Occurs(s, pat, i)
  }

  // The user is what follows the first "user:", up to the end of its line and 15 bytes.
  lemma SessionUser(buf: Str, j: nat, u: Str, rest: Str)
    requires First(buf, [117, 115, 101, 114, 58], j) && j + 5 <= |buf| && buf[j + 5..] == u + rest
    requires 10 !in u && (rest == [] || rest[0] == 10)
    ensures ParseSession(buf).user == Clip(u, 15)
  {
    hide Find, Atoi, Index, Occurs;
    FindFirst(buf, USER_KEY, j);
    IndexTail(u + rest, u, rest);
  }

  // The uid is the number behind the first "uid:".
  lemma SessionUid(buf: Str, i: nat, r: Str)
    requires First(buf, [117, 105, 100, 58], i) && i + 4 <= |buf| && buf[i + 4..] == r
    ensures ParseSession(buf).uid == Atoi(r)
  {
    hide Find, Atoi, Index, Occurs;
    FindFirst(buf, UID_KEY, i);
  }
}
