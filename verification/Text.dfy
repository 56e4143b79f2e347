/** The text side of security.c: lines "name:pass:uid", and the session file. */
module Text {
  import opened Layout

  type Str = seq<Byte>

  const COLON: Byte := 58
  const NEWLINE: Byte := 10

  datatype User = User(name: Str, pass: Str, uid: int)
  datatype Parsed = Parsed(user: User) | Malformed

  // strchr: the first index of c, |s| when it does not occur.
  function Index(s: Str, c: Byte): (k: nat)
    ensures k <= |s| && (k < |s| ==> s[k] == c)
    ensures forall i :: 0 <= i < k ==> s[i] != c
  {
    if s == [] || s[0] == c then 0 else 1 + Index(s[1..], c)
  }

  lemma IndexIs(s: Str, c: Byte, k: nat)
    requires k <= |s| && (k < |s| ==> s[k] == c) && forall i :: 0 <= i < k ==> s[i] != c
    ensures Index(s, c) == k
  {
  }

  // ---- numbers

  predicate Digit(c: Byte) {
    48 <= c <= 57
  }

  function Digits(n: nat): (s: Str)
    ensures |s| > 0 && Digit(s[0])
  {
    if n < 10 then [48 + n] else Digits(n / 10) + [48 + n % 10]
  }

  // "%d"
  function PrintInt(n: int): Str {
    if n < 0 then [45] + Digits(-n) else Digits(n)
  }

  function ValueOf(s: Str, acc: nat): nat {
    if s == [] || !Digit(s[0]) then acc else ValueOf(s[1..], 10 * acc + (s[0] - 48))
  }

  predicate Space(c: Byte) {
    c == 32 || 9 <= c <= 13
  }

  // The number at the front of a text: spaces, a sign, digits.
  function Number(s: Str): int {
    if s == [] then 0
    else if Space(s[0]) then Number(s[1..])
    else if s[0] == 45 then -(ValueOf(s[1..], 0) as int)
    else if s[0] == 43 then ValueOf(s[1..], 0)
    else ValueOf(s, 0)
  }

  predicate IsInt(n: int) {
    -0x8000_0000 <= n < 0x8000_0000
  }

  // strtol: held at the ends of a long of 64 bits.
  function ToLong(n: int): int {
    if n < -0x8000_0000_0000_0000 then -0x8000_0000_0000_0000
    else if n >= 0x8000_0000_0000_0000 then 0x7fff_ffff_ffff_ffff
    else n
  }

  // A long as an int of 32 bits.
  function ToInt(n: int): (m: int)
    ensures IsInt(m) && (m - n) % 0x1_0000_0000 == 0
  {
    (n + 0x8000_0000) % 0x1_0000_0000 - 0x8000_0000
  }

  // atoi: what strtol returns, as an int.
  function Atoi(s: Str): (n: int)
    ensures IsInt(n)
  {
    ToInt(ToLong(Number(s)))
  }

  lemma {:induction false} ValueDigits(n: nat, r: Str)
    ensures ValueOf(Digits(n) + r, 0) == ValueOf(r, n)
  {
    if n >= 10 {
      var c: Str := [48 + n % 10];
      assert Digits(n) + r == Digits(n / 10) + (c + r);
      ValueDigits(n / 10, c + r);
      assert (c + r)[1..] == r;
    } else {
      assert (Digits(n) + r)[1..] == r;
    }
  }

  lemma NumberSigned(t: Str)
    ensures Number([45] + t) == -(ValueOf(t, 0) as int)
  {
  }

  lemma NumberUnsigned(t: Str)
    requires t != [] && Digit(t[0])
    ensures Number(t) == ValueOf(t, 0)
  {
  }

  lemma ValueStops(r: Str, n: nat)
    requires r == [] || !Digit(r[0])
    ensures ValueOf(r, n) == n
  {
  }

  // atoi reads back what was printed.
  lemma AtoiPrintInt(n: int, r: Str)
    requires IsInt(n) && (r == [] || !Digit(r[0]))
    ensures Atoi(PrintInt(n) + r) == n
  {
    hide Digits, ValueOf, Number;
    var m := if n < 0 then -n else n;
    ValueDigits(m, r);
    ValueStops(r, m);
    var t := Digits(m) + r;
    if n < 0 {
      assert PrintInt(n) + r == [45] + t;
      NumberSigned(t);
    } else {
      assert t[0] == Digits(m)[0];
      NumberUnsigned(t);
    }
  }

  function Pow10(k: nat): nat {
    if k == 0 then 1 else 10 * Pow10(k - 1)
  }

  lemma {:induction false} DigitsLength(n: nat, k: nat)
    requires k >= 1 && n < Pow10(k)
    ensures |Digits(n)| <= k
  {
    if n >= 10 {
      assert k > 1;
      DigitsLength(n / 10, k - 1);
    }
  }

  lemma {:induction false} DigitsPlain(n: nat)
    ensures forall c :: c in Digits(n) ==> Digit(c)
  {
    if n >= 10 {
      DigitsPlain(n / 10);
    }
  }

  // ---- one line

  function ParseLine(line: Str): Parsed {
    var p := Index(line, COLON);
    if p == |line| then Malformed
    else
      var rest := line[p + 1..];
      var k := Index(rest, COLON);
      if k == |rest| then Malformed
      else
        var tail := rest[k + 1..];
        var m := Index(tail, NEWLINE);
        if p >= 16 || k >= 16 || m >= 16 then Malformed
        else Parsed(User(line[..p], rest[..k], Atoi(tail[..m])))
  }

  function Body(u: User): Str {
    u.name + [COLON] + u.pass + [COLON] + PrintInt(u.uid)
  }

  function Line(u: User): Str {
    Body(u) + [NEWLINE]
  }

  // A name or password that the line format can carry.
  predicate Plain(s: Str) {
    |s| < 16 && COLON !in s && NEWLINE !in s && 0 !in s
  }

  predicate Valid(u: User) {
    Plain(u.name) && Plain(u.pass) && IsInt(u.uid)
  }

  lemma IntPlain(n: int)
    requires IsInt(n)
    ensures |PrintInt(n)| <= 11 && COLON !in PrintInt(n) && NEWLINE !in PrintInt(n)
  {
    var m := if n < 0 then -n else n;
    assert Pow10(10) == 10000000000;
    DigitsLength(m, 10);
    DigitsPlain(m);
  }

  lemma IndexField(s: Str, f: Str, c: Byte, r: Str)
    requires c !in f && s == f + [c] + r
    ensures Index(s, c) == |f| && s[..|f|] == f && s[|f| + 1..] == r
  {
    IndexIs(s, c, |f|);
  }

  lemma ParseFields(line: Str, rest: Str, tail: Str, a: Str, b: Str, n: Str, r: Str)
    requires line == a + [COLON] + rest && rest == b + [COLON] + tail && tail == n + r
    requires COLON !in a && COLON !in b && NEWLINE !in n && (r == [] || r[0] == NEWLINE)
    requires |a| < 16 && |b| < 16 && |n| < 16
    ensures ParseLine(line) == Parsed(User(a, b, Atoi(n)))
  {
    hide Index, Atoi;
    IndexField(line, a, COLON, rest);
    IndexField(rest, b, COLON, tail);
    IndexTail(tail, n, r);
  }

  lemma IndexTail(tail: Str, n: Str, r: Str)
    requires tail == n + r && NEWLINE !in n && (r == [] || r[0] == NEWLINE)
    ensures Index(tail, NEWLINE) == |n| && tail[..|n|] == n
  {
  }

  // Parsing a printed line returns the record.
  lemma ParseBody(u: User, r: Str)
    requires Valid(u) && (r == [] || r[0] == NEWLINE)
    ensures ParseLine(Body(u) + r) == Parsed(u)
  {
    hide PrintInt, Atoi, ParseLine;
    IntPlain(u.uid);
    var n := PrintInt(u.uid);
    var tail := n + r;
    var rest := u.pass + [COLON] + tail;
    var line := u.name + [COLON] + rest;
    assert Body(u) + r == line;
    ParseFields(line, rest, tail, u.name, u.pass, n, r);
    AtoiPrintInt(u.uid, []);
    assert PrintInt(u.uid) + [] == PrintInt(u.uid);
  }

  // No byte ends the line or the string.
  predicate Clean(s: Str) {
    forall i :: 0 <= i < |s| ==> s[i] != NEWLINE && s[i] != 0
  }

  // Whatever parses has a name and a password that the format can carry.
  lemma ParsedPlain(line: Str)
    requires Clean(line) && ParseLine(line).Parsed?
    ensures Plain(ParseLine(line).user.name) && Plain(ParseLine(line).user.pass)
  {
  }

  // ---- a file of lines

  function Lines(text: Str): seq<Str>
    decreases |text|
  {
    if text == [] then []
    else
      var k := Index(text, NEWLINE);
      if k == |text| then [Clip(text, 255)] else [Clip(text[..k], 255)] + Lines(text[k + 1..])
  }

  function ParseAll(lines: seq<Str>): seq<User> {
    if lines == [] then []
    else
      var u := ParseLine(lines[0]);
      if u.Parsed? then [u.user] + ParseAll(lines[1..]) else ParseAll(lines[1..])
  }

  // The records of a users file, malformed lines skipped.
  function Users(text: Str): seq<User> {
    ParseAll(Lines(text))
  }

  function PrintAll(us: seq<User>): Str {
    if us == [] then [] else Line(us[0]) + PrintAll(us[1..])
  }

  ghost predicate AllValid(us: seq<User>) {
    forall i :: 0 <= i < |us| ==> Valid(us[i])
  }

  lemma BodyLine(u: User)
    requires Valid(u)
    ensures NEWLINE !in Body(u) && |Body(u)| <= 43
  {
    IntPlain(u.uid);
  }

  lemma FirstLine(u: User, rest: Str)
    requires Valid(u)
    ensures Lines(Line(u) + rest) == [Body(u)] + Lines(rest)
  {
    BodyLine(u);
    var text := Line(u) + rest;
    var k := |Body(u)|;
    assert text[..k] == Body(u);
    IndexIs(text, NEWLINE, k);
    assert text[k + 1..] == rest;
  }

  lemma NoLines()
    ensures Lines([]) == []
  {
  }

  // A file of printed records reads back as the records, in order.
  lemma {:induction false} UsersPrintAll(us: seq<User>)
    requires AllValid(us)
    ensures Users(PrintAll(us)) == us
  {
    hide Line, ParseLine, Lines, Valid;
    if us == [] {
      NoLines();
    } else {
      FirstLine(us[0], PrintAll(us[1..]));
      ParseBody(us[0], []);
      assert Body(us[0]) + [] == Body(us[0]);
      UsersPrintAll(us[1..]);
      var ls := Lines(PrintAll(us[1..]));
      assert ([Body(us[0])] + ls)[1..] == ls;
    }
  }

  lemma {:induction false} PrintAllAppend(us: seq<User>, u: User)
    ensures PrintAll(us + [u]) == PrintAll(us) + Line(u)
  {
    if us == [] {
      assert PrintAll([u]) == Line(u) + PrintAll([]);
    } else {
      assert (us + [u])[1..] == us[1..] + [u];
      PrintAllAppend(us[1..], u);
    }
  }

  lemma {:induction false} LinesClean(text: Str)
    requires forall i :: 0 <= i < |text| ==> text[i] != 0
    ensures forall j :: 0 <= j < |Lines(text)| ==> Clean(Lines(text)[j])
    decreases |text|
  {
    if text != [] {
      var k := Index(text, NEWLINE);
      if k < |text| {
        assert Clean(Clip(text[..k], 255));
        LinesClean(text[k + 1..]);
      } else {
        assert Clean(Clip(text, 255));
      }
    }
  }

  lemma {:induction false} ParseAllPlain(ls: seq<Str>)
    requires forall j :: 0 <= j < |ls| ==> Clean(ls[j])
    ensures forall i :: 0 <= i < |ParseAll(ls)| ==> Plain(ParseAll(ls)[i].name) && Plain(ParseAll(ls)[i].pass)
  {
    hide ParseLine, Plain, Clean;
    if ls != [] {
      if ParseLine(ls[0]).Parsed? {
        ParsedPlain(ls[0]);
      }
      ParseAllPlain(ls[1..]);
    }
  }

  lemma {:induction false} ParseAllInt(ls: seq<Str>)
    ensures forall i :: 0 <= i < |ParseAll(ls)| ==> IsInt(ParseAll(ls)[i].uid)
  {
    hide Atoi, Index, IsInt;
    if ls != [] {
      ParseAllInt(ls[1..]);
    }
  }

  // Whatever a users file holds, the records read from it have plain names and passwords.
  lemma UsersPlain(text: Str)
    requires 0 !in text
    ensures forall i :: 0 <= i < |Users(text)| ==> Plain(Users(text)[i].name) && Plain(Users(text)[i].pass)
  {
    hide Plain, Lines, ParseAll;
    LinesClean(text);
    ParseAllPlain(Lines(text));
  }

  lemma {:induction false} PrintAllClean(us: seq<User>)
    requires AllValid(us)
    ensures 0 !in PrintAll(us)
  {
    if us != [] {
      IntPlain(us[0].uid);
      IntClean(us[0].uid);
      PrintAllClean(us[1..]);
    }
  }

  lemma IntClean(n: int)
    ensures 0 !in PrintInt(n)
  {
    DigitsPlain(if n < 0 then -n else n);
  }

  // The line of a valid record fits the buffers that the line is printed into and read from.
  lemma LineFits(u: User)
    requires Valid(u)
    ensures Clip(Line(u), 255) == Line(u)
  {
    BodyLine(u);
  }

  // ---- logging in, adding, changing

  // The uid of the first record with this name and password.
  function Login(us: seq<User>, name: Str, pass: Str): Parsed {
    if us == [] then Malformed
    else if us[0].name == name && us[0].pass == pass then Parsed(us[0])
    else Login(us[1..], name, pass)
  }

  function MaxUid(us: seq<User>): (m: int)
    ensures m >= 0 && forall i :: 0 <= i < |us| ==> us[i].uid <= m
  {
    if us == [] then 0
    else
      var m := MaxUid(us[1..]);
      if us[0].uid > m then us[0].uid else m
  }

  predicate Named(us: seq<User>, name: Str) {
    exists i :: 0 <= i < |us| && us[i].name == name
  }

  ghost predicate DistinctUids(us: seq<User>) {
    forall i, j :: 0 <= i < j < |us| ==> us[i].uid != us[j].uid
  }

  function Repass(us: seq<User>, name: Str, pass: Str): (r: seq<User>)
    ensures |r| == |us|
    ensures forall i :: 0 <= i < |us| ==> r[i] == if us[i].name == name then us[i].(pass := pass) else us[i]
  {
    if us == [] then []
    else [if us[0].name == name then us[0].(pass := pass) else us[0]] + Repass(us[1..], name, pass)
  }

  lemma {:induction false} LoginExists(us: seq<User>, name: Str, pass: Str)
    ensures Login(us, name, pass).Parsed? <==> exists i :: 0 <= i < |us| && us[i].name == name && us[i].pass == pass
  {
    if us != [] {
      LoginExists(us[1..], name, pass);
      if i :| 0 <= i < |us| && us[i].name == name && us[i].pass == pass {
        assert i > 0 ==> us[1..][i - 1] == us[i];
      }
    }
  }

  lemma {:induction false} LoginAppend(us: seq<User>, u: User)
    requires !Named(us, u.name)
    ensures Login(us + [u], u.name, u.pass) == Parsed(u)
  {
    if us != [] {
      assert us[0].name != u.name;
      assert (us + [u])[1..] == us[1..] + [u];
      assert forall i :: 0 <= i < |us[1..]| ==> us[1..][i] == us[i + 1];
      LoginAppend(us[1..], u);
    }
  }

  // users_add: the new uid differs from all others, and the pair logs in with it.
  lemma AddedUser(us: seq<User>, name: Str, pass: Str)
    requires DistinctUids(us) && !Named(us, name)
    ensures DistinctUids(us + [User(name, pass, MaxUid(us) + 1)])
    ensures Login(us + [User(name, pass, MaxUid(us) + 1)], name, pass) == Parsed(User(name, pass, MaxUid(us) + 1))
  {
    LoginAppend(us, User(name, pass, MaxUid(us) + 1));
  }

  // users_change_password: the name logs in with the new password and with no other, every
  // other name as before.
  lemma ChangedPassword(us: seq<User>, name: Str, pass: Str, q: Str, w: Str)
    ensures Login(Repass(us, name, pass), q, w).Parsed?
      <==> if q == name then w == pass && Named(us, name) else Login(us, q, w).Parsed?
  {
    var r := Repass(us, name, pass);
    LoginExists(r, q, w);
    LoginExists(us, q, w);
    if q == name && w == pass && Named(us, name) {
      var i :| 0 <= i < |us| && us[i].name == name;
      assert r[i].name == name && r[i].pass == pass;
    } else if q != name && Login(us, q, w).Parsed? {
      var i :| 0 <= i < |us| && us[i].name == q && us[i].pass == w;
      assert r[i] == us[i];
    }
  }

  // ---- the session file

  // strstr: the first index at which pat occurs, |s| when it does not.
  function Find(s: Str, pat: Str): (k: nat)
    ensures k <= |s|
  {
    if s == [] || pat <= s then 0 else 1 + Find(s[1..], pat)
  }

  lemma {:induction false} FindIs(s: Str, pat: Str, k: nat)
    requires k < |s| && pat <= s[k..] && forall i :: 0 <= i < k ==> !(pat <= s[i..])
    ensures Find(s, pat) == k
  {
    if k > 0 {
      assert s[0..] == s;
      forall i | 0 <= i < k - 1
        ensures !(pat <= s[1..][i..])
      {
        assert s[1..][i..] == s[i + 1..];
      }
      assert s[1..][k - 1..] == s[k..];
      FindIs(s[1..], pat, k - 1);
    } else {
      assert s[0..] == s;
    }
  }

  const UID_KEY: Str := [117, 105, 100, COLON]
  const USER_KEY: Str := [117, 115, 101, 114, COLON]

  // "uid:%d\nuser:%s\n"
  function SessionText(uid: int, user: Str): Str {
    UID_KEY + PrintInt(uid) + [NEWLINE] + USER_KEY + user + [NEWLINE]
  }

  datatype Session = Session(uid: int, user: Str)

  // The uid after the first "uid:" and the user, up to 15 bytes of the line, after the first "user:".
  function ParseSession(buf: Str): Session {
    var i, j := Find(buf, UID_KEY), Find(buf, USER_KEY);
    var uid := if i + 4 <= |buf| then Atoi(buf[i + 4..]) else 0;
    if j + 5 <= |buf| then
      var rest := buf[j + 5..];
      Session(uid, Clip(rest[..Index(rest, NEWLINE)], 15))
    else Session(uid, [])
  }

  lemma UserKeyLast(head: Str, tail: Str)
    requires |head| > 1 && 117 !in head[1..] && head[1] == 105
    ensures Find(head + USER_KEY + tail, USER_KEY) == |head|
  {
    var s := head + USER_KEY + tail;
    forall i | 0 <= i < |head|
      ensures !(USER_KEY <= s[i..])
    {
      if i == 0 {
        assert s[0..][1] == 105;
      } else {
        assert s[i..][0] == head[1..][i - 1];
      }
    }
    assert s[|head|..] == USER_KEY + tail;
    FindIs(s, USER_KEY, |head|);
  }

  // Loading a saved session gives the same uid and user.
  lemma SessionRoundTrip(uid: int, user: Str)
    requires Plain(user) && IsInt(uid)
    ensures ParseSession(SessionText(uid, user)) == Session(uid, user) && |SessionText(uid, user)| <= 127
  {
    hide PrintInt, Atoi, Find, Index;
    IntPlain(uid);
    IntNoU(uid);
    var n := PrintInt(uid);
    var head, tail := UID_KEY + n + [NEWLINE], user + [NEWLINE];
    var buf := head + USER_KEY + tail;
    assert SessionText(uid, user) == buf;
    assert buf == UID_KEY + (n + ([NEWLINE] + USER_KEY + tail));
    UidKeyFirst(n + ([NEWLINE] + USER_KEY + tail));
    AtoiPrintInt(uid, [NEWLINE] + USER_KEY + tail);
    assert head[1..] == [105, 100, COLON] + n + [NEWLINE];
    UserKeyLast(head, tail);
    assert buf[|head| + 5..] == tail;
    IndexTail(tail, user, [NEWLINE]);
  }

  lemma UidKeyFirst(r: Str)
    ensures Find(UID_KEY + r, UID_KEY) == 0 && (UID_KEY + r)[4..] == r
  {
  }

  lemma IntNoU(n: int)
    ensures 117 !in PrintInt(n)
  {
    DigitsPlain(if n < 0 then -n else n);
  }
}
