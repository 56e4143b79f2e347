/** security.c: the users file and the session file, kept through the file system. */
module Accounts {
  import opened Layout
  import opened Records
  import opened Volume
  import opened Device
  import opened FileIo
  import opened Namespace
  import opened Files
  import opened Store
  import opened Text

  // "/.users", its leaf, "/.session"
  const USERS: Name := [47, 46, 117, 115, 101, 114, 115]
  const USERS_LEAF: Name := [46, 117, 115, 101, 114, 115]
  const SESSION: Name := [47, 46, 115, 101, 115, 115, 105, 111, 110]

  // ---- the scanning loops

  // One pass of a loop over the lines of a text: the line at p, cut to 255 bytes, and its end.
  method NextLine(text: Str, p: nat) returns (line: Str, nl: nat)
    requires p < |text|
    ensures p <= nl <= |text|
    ensures Lines(text[p..]) == [line] + if nl == |text| then [] else Lines(text[nl + 1..])
  {
    var k := Index(text[p..], NEWLINE);
    nl := p + k;
    line := Clip(text[p..nl], 255);
    assert text[p..][..k] == text[p..nl];
    if nl < |text| {
      assert text[p..][k + 1..] == text[nl + 1..];
    } else {
      assert text[p..nl] == text[p..];
    }
  }

  lemma UsersStep(line: Str, rest: seq<Str>)
    ensures ParseAll([line] + rest)
      == if ParseLine(line).Parsed? then [ParseLine(line).user] + ParseAll(rest) else ParseAll(rest)
  {
  }

  // The loop of users_login: the first record with this name and password.
  method ScanLogin(text: Str, name: Str, pass: Str) returns (ok: bool, uid: int)
    ensures ok == Login(Users(text), name, pass).Parsed?
    ensures ok ==> uid == Login(Users(text), name, pass).user.uid
  {
    hide ParseLine, Lines, Index;
    var p := 0;
    ok, uid := false, -1;
    assert text[0..] == text;
    while p < |text|
      invariant p <= |text|
      invariant Login(Users(text), name, pass) == Login(Users(text[p..]), name, pass)
      decreases |text| - p
    {
      var line, nl := NextLine(text, p);
      var rest := if nl == |text| then [] else Lines(text[nl + 1..]);
      UsersStep(line, rest);
      var u := ParseLine(line);
      if u.Parsed? {
        assert ([u.user] + ParseAll(rest))[1..] == ParseAll(rest);
        if u.user.name == name && u.user.pass == pass {
          return true, u.user.uid;
        }
      }
      if nl == |text| {
        return;
      }
      p := nl + 1;
    }
    NoUsers(text[p..]);
  }

  lemma NoUsers(text: Str)
    ensures text == [] ==> Users(text) == []
  {
  }

  // The loop of users_add: whether the name is taken, and the greatest uid, at least 0.
  method ScanAdd(text: Str, name: Str) returns (taken: bool, maxUid: int)
    ensures taken == Named(Users(text), name)
    ensures !taken ==> maxUid == MaxUid(Users(text))
  {
    hide ParseLine, Lines, Index;
    var p := 0;
    taken, maxUid := false, 0;
    assert text[0..] == text;
    while p < |text|
      invariant p <= |text| && maxUid >= 0
      invariant Named(Users(text), name) == Named(Users(text[p..]), name)
      invariant MaxUid(Users(text)) == if MaxUid(Users(text[p..])) > maxUid then MaxUid(Users(text[p..])) else maxUid
      decreases |text| - p
    {
      var line, nl := NextLine(text, p);
      var rest := if nl == |text| then [] else Lines(text[nl + 1..]);
      UsersStep(line, rest);
      var u := ParseLine(line);
      if u.Parsed? {
        NamedStep(u.user, ParseAll(rest), name);
        if u.user.name == name {
          return true, maxUid;
        }
        if u.user.uid > maxUid {
          maxUid := u.user.uid;
        }
      }
      if nl == |text| {
        NoneNamed(name);
        return;
      }
      p := nl + 1;
    }
    NoUsers(text[p..]);
    NoneNamed(name);
  }

  lemma NoneNamed(name: Str)
    ensures !Named([], name)
  {
  }

  lemma NamedStep(u: User, us: seq<User>, name: Str)
    ensures Named([u] + us, name) <==> u.name == name || Named(us, name)
    ensures MaxUid([u] + us) == if u.uid > MaxUid(us) then u.uid else MaxUid(us)
  {
  }

  // ---- users_login, users_add

  // The users file as security.c reads it: up to a NUL byte, if it holds one.
  function TextOf(s: seq<Byte>): Str {
    CStr(s)
  }

  lemma CleanText(s: seq<Byte>)
    requires 0 !in s
    ensures TextOf(s) == s
  {
  }

  method UsersAdd(d: Disk, name: Name, pass: Name, ghost t: Tree, ghost ino: nat, ghost s: seq<Byte>) returns (r: int)
    requires d.Ok() && Stored(d.vol, t, USERS, ino, s)
    modifies d`dev, d`vol, d`images, d`trace, d`sb, d`gd, d`ofile
    ensures d.Ok() && SameOpen(old(d.ofile), d.ofile)
    ensures
      var us := Users(TextOf(s));
      var line := Clip(Line(User(name, pass, MaxUid(us) + 1)), 255);
      && r == (if d.uid != 0 then FS_EPERM
               else if AllUsed(old(d.ofile)) then FS_ERR
               else if Named(us, name) then FS_EEXIST
               else if Fits(old(d.vol).data, old(d.vol).inodes[ino], |s|, |line|, old(d.sb.freeBlocks)) then FS_OK
               else FS_ENOSPC)
      && Stored(d.vol, t, USERS, ino, if r == FS_OK then s + line else s)
    ensures 1 <= ino <= 256 && OnlyFile(old(d.vol), d.vol, t, ino) && Frame(old(d.vol), d.vol, ino)
    ensures d.sb.freeInodes == old(d.sb.freeInodes)
    ensures r == FS_OK ==>
      var us := Users(TextOf(s));
      var line := Clip(Line(User(name, pass, MaxUid(us) + 1)), 255);
      Consumed(old(d.vol), d.vol, ino, |s|, |line|, old(d.sb.freeBlocks), d.sb.freeBlocks)
  {
    hide Recorded, Decodes, Sound, Stored, Users, Line, Fits, Named, MaxUid, TextOf, Frame, OnlyFile, Consumed;
    hide OnlyRead;
    ghost var v, free := d.vol, d.sb.freeBlocks;
    StoredRange(v, t, USERS, ino, s);
    FrameRefl(v, ino);
    StoredOnly(v, v, t, USERS, ino, s);
    if d.uid != 0 {
      return FS_EPERM;
    }
    var e, out := ReadStored(d, USERS, t, ino, s);
    ghost var w := d.vol;
    OnlyReadKeeps(v, w, ino);
    StoredOnly(v, w, t, USERS, ino, s);
    if e != FS_OK {
      return FS_ERR;
    }
    var taken, maxUid := ScanAdd(TextOf(out), name);
    if taken {
      return FS_EEXIST;
    }
    var line := Clip(Line(User(name, pass, maxUid + 1)), 255);
    r := AppendLine(d, USERS, line, t, ino, s);
    FrameTrans(v, w, d.vol, ino);
    StoredOnly(v, d.vol, t, USERS, ino, s);
    if r == FS_OK {
      ConsumedRead(v, w, d.vol, ino, |s|, |line|, free, d.sb.freeBlocks);
    }
  }

  // Adding to a file of valid records: the file is then that of the records with the new one,
  // the uids stay distinct, and the pair logs in with the new uid.
  lemma AddThenLogin(us: seq<User>, name: Name, pass: Name)
    requires AllValid(us) && DistinctUids(us) && !Named(us, name) && Plain(name) && Plain(pass)
    requires MaxUid(us) < 0x7fff_ffff
    ensures
      var u := User(name, pass, MaxUid(us) + 1);
      var s := PrintAll(us) + Clip(Line(u), 255);
      && s == PrintAll(us + [u]) && Users(TextOf(s)) == us + [u]
      && AllValid(us + [u]) && DistinctUids(us + [u]) && Login(us + [u], name, pass) == Parsed(u)
  {
    hide Plain, Line, Users, TextOf;
    var u := User(name, pass, MaxUid(us) + 1);
    LineFits(u);
    PrintAllAppend(us, u);
    AddedUser(us, name, pass);
    assert AllValid(us + [u]);
    PrintAllClean(us + [u]);
    CleanText(PrintAll(us + [u]));
    UsersPrintAll(us + [u]);
  }

  // A pair that the line format cannot carry never logs in, whatever the file holds.
  lemma OnlyPlainLogsIn(s: seq<Byte>, name: Str, pass: Str)
    requires Login(Users(TextOf(s)), name, pass).Parsed?
    ensures Plain(name) && Plain(pass)
  {
    hide Plain, Users;
    UsersPlain(TextOf(s));
    LoginExists(Users(TextOf(s)), name, pass);
  }

  // ---- users_change_password

  // The lines as they are printed into a buffer of 256 bytes.
  function PrintClipped(us: seq<User>): Str {
    if us == [] then [] else Clip(Line(us[0]), 255) + PrintClipped(us[1..])
  }

  lemma {:induction false} PrintClippedValid(us: seq<User>)
    requires AllValid(us)
    ensures PrintClipped(us) == PrintAll(us)
  {
    hide Line, Valid;
    if us != [] {
      LineFits(us[0]);
      PrintClippedValid(us[1..]);
    }
  }

  lemma {:induction false} PrintClippedAppend(a: seq<User>, b: seq<User>)
    ensures PrintClipped(a + b) == PrintClipped(a) + PrintClipped(b)
  {
    hide Line;
    if a == [] {
      assert a + b == b;
    } else {
      assert (a + b)[1..] == a[1..] + b;
      PrintClippedAppend(a[1..], b);
    }
  }

  lemma RepassStep(u: User, us: seq<User>, name: Str, pass: Str)
    ensures Repass([u] + us, name, pass) == [if u.name == name then u.(pass := pass) else u] + Repass(us, name, pass)
  {
    assert ([u] + us)[1..] == us;
  }

  // a is b with some records left out.
  ghost predicate Subseq(a: seq<User>, b: seq<User>) {
    a == []
    || (b != [] && a[|a| - 1] == b[|b| - 1] && Subseq(a[..|a| - 1], b[..|b| - 1]))
    || (b != [] && Subseq(a, b[..|b| - 1]))
  }

  // Of the records target, done have been dealt with and rest have not; those of kept are in the
  // file s. When none was lost so far, whole, they are all of done.
  ghost predicate Rewriting(target: seq<User>, done: seq<User>, rest: seq<User>, kept: seq<User>, s: Str, whole: bool) {
    && target == done + rest && Subseq(kept, done) && s == PrintClipped(kept)
    && if whole then kept == done else |s| + |PrintClipped(rest)| < |PrintClipped(target)|
  }

  // What is known of the whole file when the records rest are to come: fits says that it fits.
  ghost predicate Promised(v: Vol, ino: nat, free: nat, s: Str, rest: seq<User>, whole: bool, fits: bool)
    requires 1 <= ino <= 256
  {
    if whole then fits <==> Fits(v.data, v.inodes[ino], |s|, |PrintClipped(rest)|, free) else !fits
  }

  // The line of the next record is written, ok, or lost.
  lemma RewritingStep(target: seq<User>, done: seq<User>, u: User, rest: seq<User>, kept: seq<User>, s: Str,
                      whole: bool, ok: bool)
    requires Rewriting(target, done, [u] + rest, kept, s, whole)
    ensures
      var line := Clip(Line(u), 255);
      && line != [] && |PrintClipped([u] + rest)| == |line| + |PrintClipped(rest)|
      && Rewriting(target, done + [u], rest, if ok then kept + [u] else kept, if ok then s + line else s, whole && ok)
  {
    hide Line, Clip, PrintClipped, Subseq;
    var line := Clip(Line(u), 255);
    LineLength(u);
    PrintClippedOne(u);
    PrintClippedAppend(done, [u] + rest);
    PrintClippedAppend([u], rest);
    PrintClippedAppend(kept, [u]);
    SubseqNext(kept, done, u);
    assert target == (done + [u]) + rest;
  }

  lemma PrintClippedOne(u: User)
    ensures PrintClipped([u]) == Clip(Line(u), 255)
  {
    hide Line;
    assert PrintClipped([u][1..]) == [];
  }

  lemma SubseqNext(a: seq<User>, b: seq<User>, u: User)
    requires Subseq(a, b)
    ensures Subseq(a + [u], b + [u]) && Subseq(a, b + [u])
  {
    assert (b + [u])[..|b|] == b && (a + [u])[..|a|] == a;
  }

  lemma RewritingStart(target: seq<User>)
    ensures Rewriting(target, [], target, [], [], true)
  {
  }

  lemma RewritingEnd(target: seq<User>, done: seq<User>, kept: seq<User>, s: Str, whole: bool)
    requires Rewriting(target, done, [], kept, s, whole)
    ensures s == PrintClipped(kept) && Subseq(kept, target) && (s == PrintClipped(target) <==> whole)
  {
    assert done == target;
  }

  // One line of the rewritten file. It is written exactly when it fits, and then what fitted before
  // the line and after it fits after it.
  method RewriteLine(d: Disk, fd: int, line: Str, ghost t: Tree, ghost ino: nat, ghost s: seq<Byte>)
    returns (ghost ok: bool)
    requires d.Ok() && Stored(d.vol, t, USERS, ino, s) && WriteFd(d.ofile, fd, ino, |s|) && 0 < |line| <= 255
    requires 1 <= ino <= 256 && PermCanWrite(d.vol.inodes[ino], d.uid)
    modifies d`dev, d`vol, d`images, d`trace, d`sb, d`gd, d`ofile
    ensures d.Ok() && Stored(d.vol, t, USERS, ino, if ok then s + line else s)
    ensures WriteFd(d.ofile, fd, ino, if ok then |s| + |line| else |s|) && d.ofile == old(d.ofile)[fd := d.ofile[fd]]
    ensures Frame(old(d.vol), d.vol, ino) && d.vol.inodes[ino].uid == old(d.vol).inodes[ino].uid
    ensures PermCanWrite(d.vol.inodes[ino], d.uid)
    ensures ok <==> Fits(old(d.vol).data, old(d.vol).inodes[ino], |s|, |line|, old(d.sb.freeBlocks))
    ensures ok ==> forall n: nat :: n >= |line| ==>
      (Fits(old(d.vol).data, old(d.vol).inodes[ino], |s|, n, old(d.sb.freeBlocks))
       <==> Fits(d.vol.data, d.vol.inodes[ino], |s| + |line|, n - |line|, d.sb.freeBlocks))
  {
    hide Recorded, Decodes, Sound, Stored, Fits, Filled, Extends, Needed, PermCanWrite, Frame;
    ghost var v, free := d.vol, d.sb.freeBlocks;
    var r := WriteEnd(d, fd, line, t, USERS, ino, s);
    ok := r >= 0;
    SamePerm(v.inodes[ino], d.vol.inodes[ino], d.uid) by {
      FrameMode(v, d.vol, ino);
    }
    if ok {
      forall n: nat | n >= |line|
        ensures Fits(v.data, v.inodes[ino], |s|, n, free)
          <==> Fits(d.vol.data, d.vol.inodes[ino], |s| + |line|, n - |line|, d.sb.freeBlocks)
      {
        if Fits(v.data, v.inodes[ino], |s|, n, free) {
          FitsPiece(v.data, v.inodes[ino], d.vol.data, d.vol.inodes[ino], |s|, |line|, n, free);
        }
        if Fits(d.vol.data, d.vol.inodes[ino], |s| + |line|, n - |line|, d.sb.freeBlocks) {
          FitsWhole(v.data, v.inodes[ino], d.vol.data, d.vol.inodes[ino], |s|, |line|, n, free);
        }
      }
    }
  }

  lemma FrameMode(v: Vol, w: Vol, ino: nat)
    requires Frame(v, w, ino) && 1 <= ino <= 256
    ensures w.inodes[ino].mode == v.inodes[ino].mode
  {
  }

  // A line that does not fit leaves no room for the whole.
  lemma TooLong(data: seq<Block>, x: Inode, pos: nat, a: nat, n: nat, free: nat)
    requires a <= n && !Fits(data, x, pos, a, free)
    ensures !Fits(data, x, pos, n, free)
  {
    hide Needed;
    if Fits(data, x, pos, n, free) {
      FitsPiece(data, x, data, x, pos, a, n, free);
    }
  }

  // rest are the rewritten records of the text from p on.
  ghost predicate Ahead(text: Str, p: nat, name: Str, pass: Str, rest: seq<User>) {
    p <= |text| && rest == Repass(Users(text[p..]), name, pass)
  }

  lemma AheadEnds(text: Str, name: Str, pass: Str, rest: seq<User>)
    ensures Ahead(text, 0, name, pass, Repass(Users(text), name, pass))
    ensures Ahead(text, |text|, name, pass, rest) ==> rest == []
  {
    hide Lines, ParseAll;
    assert text[0..] == text;
    NoUsers(text[|text|..]);
  }

  // The loop goes on behind the line at p; if the line parses, its record comes first.
  lemma AheadStep(text: Str, p: nat, l: Str, nl: nat, name: Str, pass: Str, rest: seq<User>)
    requires p <= nl <= |text| && Lines(text[p..]) == [l] + if nl == |text| then [] else Lines(text[nl + 1..])
    requires Ahead(text, p, name, pass, rest)
    ensures
      var u, q := ParseLine(l), if nl == |text| then nl else nl + 1;
      if u.Parsed? then
        rest != [] && rest == [if u.user.name == name then u.user.(pass := pass) else u.user] + rest[1..]
        && Ahead(text, q, name, pass, rest[1..])
      else
        Ahead(text, q, name, pass, rest)
  {
    hide ParseLine, Lines, Users, Repass;
    var us := if nl == |text| then [] else Users(text[nl + 1..]);
    UsersAt(text, p, l, nl);
    if ParseLine(l).Parsed? {
      RepassStep(ParseLine(l).user, us, name, pass);
      assert rest[1..] == Repass(us, name, pass);
    }
    NoUsers(text[nl..]);
  }

  // The records from p on: the one of the line at p, if it parses, and those behind it.
  lemma UsersAt(text: Str, p: nat, l: Str, nl: nat)
    requires p <= nl <= |text| && Lines(text[p..]) == [l] + if nl == |text| then [] else Lines(text[nl + 1..])
    ensures
      var us := if nl == |text| then [] else Users(text[nl + 1..]);
      Users(text[p..]) == if ParseLine(l).Parsed? then [ParseLine(l).user] + us else us
  {
    hide ParseLine, Lines;
    UsersStep(l, if nl == |text| then [] else Lines(text[nl + 1..]));
  }

  // The rewriting loop of users_change_password. The results of the writes are not looked at: the
  // file is the rewritten one exactly when it fits; otherwise it lacks the records, kept are those
  // that are left, of the lines that did not fit at their turn.
  method RewriteUsers(d: Disk, fd: int, text: Str, name: Str, pass: Str, ghost t: Tree, ghost ino: nat)
    returns (ghost s: seq<Byte>, ghost kept: seq<User>)
    requires d.Ok() && Stored(d.vol, t, USERS, ino, []) && WriteFd(d.ofile, fd, ino, 0)
    requires 1 <= ino <= 256 && PermCanWrite(d.vol.inodes[ino], d.uid)
    modifies d`dev, d`vol, d`images, d`trace, d`sb, d`gd, d`ofile
    ensures d.Ok() && Stored(d.vol, t, USERS, ino, s) && OpenFd(d.ofile, fd)
    ensures d.ofile == old(d.ofile)[fd := d.ofile[fd]]
    ensures Frame(old(d.vol), d.vol, ino) && d.vol.inodes[ino].uid == old(d.vol).inodes[ino].uid
    ensures
      var target := Repass(Users(text), name, pass);
      var all := PrintClipped(target);
      && s == PrintClipped(kept) && Subseq(kept, target)
      && (s == all <==> Fits(old(d.vol).data, old(d.vol).inodes[ino], 0, |all|, old(d.sb.freeBlocks)))
  {
    hide Recorded, Decodes, Sound, Stored, Fits, PermCanWrite, Frame, ParseLine, Lines, Index, Line, Repass;
    hide PrintClipped;
    hide Ahead, ParseAll, Rewriting, Subseq, Clip, Users, WriteFd, Promised, OpenFd, Atoi, TextOf;
    hide Needed, Extends, Filled;
    WriteFdOpen(d.ofile, fd, ino, 0);
    ghost var v, target := d.vol, Repass(Users(text), name, pass);
    ghost var fits := Fits(v.data, v.inodes[ino], 0, |PrintClipped(target)|, d.sb.freeBlocks);
    ghost var whole, done, rest := true, [], target;
    RewritingStart(target);
    AheadEnds(text, name, pass, rest);
    PromisedStart(v, ino, d.sb.freeBlocks, target);
    FrameRefl(v, ino);
    var p := 0;
    s, kept := [], [];
    assert d.ofile == d.ofile[fd := d.ofile[fd]];
    while p < |text|
      invariant p <= |text| && d.Ok() && Stored(d.vol, t, USERS, ino, s) && WriteFd(d.ofile, fd, ino, |s|)
      invariant OpenFd(d.ofile, fd) && d.ofile == old(d.ofile)[fd := d.ofile[fd]]
      invariant PermCanWrite(d.vol.inodes[ino], d.uid)
      invariant Frame(v, d.vol, ino) && d.vol.inodes[ino].uid == v.inodes[ino].uid
      invariant Ahead(text, p, name, pass, rest) && Rewriting(target, done, rest, kept, s, whole)
      invariant Promised(d.vol, ino, d.sb.freeBlocks, s, rest, whole, fits)
      decreases |text| - p
    {
      var l, nl := NextLine(text, p);
      AheadStep(text, p, l, nl, name, pass, rest);
      var u := ParseLine(l);
      if u.Parsed? {
        var x := if u.user.name == name then u.user.(pass := pass) else u.user;
        rest := rest[1..];
        ghost var w := d.vol;
        ghost var ok := RewriteRecord(d, fd, x, t, ino, s, fits, target, done, rest, kept, whole);
        FrameTrans(v, w, d.vol, ino);
        done, kept := done + [x], if ok then kept + [x] else kept;
        s, whole := if ok then s + Clip(Line(x), 255) else s, whole && ok;
      }
      p := if nl == |text| then nl else nl + 1;
    }
    AheadEnds(text, name, pass, rest);
    RewritingEnd(target, done, kept, s, whole);
    PromisedEnd(d.vol, ino, d.sb.freeBlocks, s, whole, fits);
  }

  // The turn of one record in the loop.
  method RewriteRecord(d: Disk, fd: int, x: User, ghost t: Tree, ghost ino: nat, ghost s: seq<Byte>, ghost fits: bool,
                       ghost target: seq<User>, ghost done: seq<User>, ghost rest: seq<User>,
                       ghost kept: seq<User>, ghost whole: bool)
    returns (ghost ok: bool)
    requires d.Ok() && Stored(d.vol, t, USERS, ino, s) && WriteFd(d.ofile, fd, ino, |s|)
    requires 1 <= ino <= 256 && PermCanWrite(d.vol.inodes[ino], d.uid)
    requires Rewriting(target, done, [x] + rest, kept, s, whole)
    requires Promised(d.vol, ino, d.sb.freeBlocks, s, [x] + rest, whole, fits)
    modifies d`dev, d`vol, d`images, d`trace, d`sb, d`gd, d`ofile
    ensures
      var s' := if ok then s + Clip(Line(x), 255) else s;
      && d.Ok() && Stored(d.vol, t, USERS, ino, s') && WriteFd(d.ofile, fd, ino, |s'|)
      && Rewriting(target, done + [x], rest, if ok then kept + [x] else kept, s', whole && ok)
      && Promised(d.vol, ino, d.sb.freeBlocks, s', rest, whole && ok, fits)
    ensures OpenFd(d.ofile, fd) && d.ofile == old(d.ofile)[fd := d.ofile[fd]] && PermCanWrite(d.vol.inodes[ino], d.uid)
    ensures Frame(old(d.vol), d.vol, ino) && d.vol.inodes[ino].uid == old(d.vol).inodes[ino].uid
  {
    hide Recorded, Decodes, Sound, Stored, Fits, PermCanWrite, Frame, Line, Clip, PrintClipped, Rewriting;
    ghost var w, free := d.vol, d.sb.freeBlocks;
    var line := Clip(Line(x), 255);
    RewritingStep(target, done, x, rest, kept, s, whole, true);
    LineLength(x);
    ok := RewriteLine(d, fd, line, t, ino, s);
    RewritingStep(target, done, x, rest, kept, s, whole, ok);
    if !ok {
      TooLong(w.data, w.inodes[ino], |s|, |line|, |PrintClipped([x] + rest)|, free);
    }
  }

  lemma LineLength(u: User)
    ensures 0 < |Clip(Line(u), 255)| <= 255
  {
  }

  lemma WriteFdOpen(f: seq<OpenFile>, fd: int, ino: nat, off: nat)
    requires WriteFd(f, fd, ino, off)
    ensures OpenFd(f, fd)
  {
  }

  lemma PromisedStart(v: Vol, ino: nat, free: nat, target: seq<User>)
    requires 1 <= ino <= 256
    ensures Promised(v, ino, free, [], target, true, Fits(v.data, v.inodes[ino], 0, |PrintClipped(target)|, free))
  {
  }

  lemma PromisedEnd(v: Vol, ino: nat, free: nat, s: Str, whole: bool, fits: bool)
    requires 1 <= ino <= 256 && Promised(v, ino, free, s, [], whole, fits)
    ensures whole <==> fits
  {
    assert |PrintClipped([])| == 0;
  }

  // What users_change_password leaves in a file that it opened and cut: some of the records, in
  // order, with the password replaced; all of them exactly when they fit.
  ghost predicate Rewritten(v: Vol, ino: nat, free: nat, target: seq<User>, s: seq<Byte>)
    requires 1 <= ino <= 256
  {
    && (exists kept :: Subseq(kept, target) && s == PrintClipped(kept))
    && (s == PrintClipped(target) <==> Fits(v.data, v.inodes[ino], 0, |PrintClipped(target)|, free))
  }

  // Opening, truncating and rewriting the users file.
  method Rewrite(d: Disk, text: Str, name: Str, pass: Str, ghost t: Tree, ghost ino: nat, ghost s: seq<Byte>)
    returns (r: int, ghost s': seq<Byte>)
    requires d.Ok() && Stored(d.vol, t, USERS, ino, s) && 1 <= ino <= 256
    modifies d`dev, d`vol, d`images, d`trace, d`sb, d`gd, d`ofile
    ensures d.Ok() && SameOpen(old(d.ofile), d.ofile) && Stored(d.vol, t, USERS, ino, s')
    ensures Frame(old(d.vol), d.vol, ino) && d.vol.inodes[ino].uid == old(d.vol).inodes[ino].uid
    ensures
      var x := old(d.vol).inodes[ino];
      && r == (if !PermCanWrite(x, d.uid) then FS_EPERM else if AllUsed(old(d.ofile)) then FS_ERR else FS_OK)
      && (r != FS_OK ==> s' == s)
      && (r == FS_OK ==> Rewritten(old(d.vol), ino, old(d.sb.freeBlocks), Repass(Users(text), name, pass), s'))
  {
    hide Recorded, Decodes, Sound, Stored, Fits, Users, Repass, PrintClipped, Subseq, PermCanRead, PermCanWrite, Frame;
    s' := s;
    ghost var w := d.vol;
    FrameRefl(w, ino);
    var fd := OpenStored(d, USERS, [W], t, ino, s);
    if fd < 0 {
      return fd, s';
    }
    var e := CutToZero(d, fd, t, USERS, ino, s);
    ghost var u := d.vol;
    SamePerm(w.inodes[ino], u.inodes[ino], d.uid);
    FitsTouched(w.data, w.inodes[ino], u.inodes[ino]);
    ghost var kept;
    s', kept := RewriteUsers(d, fd, text, name, pass, t, ino);
    FrameTrans(w, u, d.vol, ino);
    e := FsClose(d, fd);
    r := FS_OK;
  }

  // users_change_password: root may change any password, a user his own, as far as the mode of
  // the file lets him write it; the results of the writes are not looked at.
  method UsersChangePassword(d: Disk, name: Name, pass: Name, ghost t: Tree, ghost ino: nat, ghost s: seq<Byte>)
    returns (r: int, ghost s': seq<Byte>)
    requires d.Ok() && Stored(d.vol, t, USERS, ino, s)
    modifies d`dev, d`vol, d`images, d`trace, d`sb, d`gd, d`ofile
    ensures d.Ok() && SameOpen(old(d.ofile), d.ofile) && Stored(d.vol, t, USERS, ino, s')
    ensures 1 <= ino <= 256 && OnlyFile(old(d.vol), d.vol, t, ino)
    ensures
      var x := old(d.vol).inodes[ino];
      && r == (if !(d.uid == 0 || d.user == name) then FS_EPERM
               else if !PermCanRead(x, d.uid) || AllUsed(old(d.ofile)) then FS_ERR
               else if !PermCanWrite(x, d.uid) then FS_EPERM
               else FS_OK)
      && (r != FS_OK ==> s' == s)
      && (r == FS_OK ==> Rewritten(old(d.vol), ino, old(d.sb.freeBlocks), Repass(Users(TextOf(s)), name, pass), s'))
  {
    hide Recorded, Decodes, Sound, Stored, Fits, TextOf, Users, Repass, PrintClipped, Subseq, PermCanRead, PermCanWrite;
    hide Frame, OnlyFile;
    s' := s;
    ghost var v := d.vol;
    StoredRange(v, t, USERS, ino, s);
    FrameRefl(v, ino);
    StoredOnly(v, v, t, USERS, ino, s);
    if !(d.uid == 0 || d.user == name) {
      return FS_EPERM, s';
    }
    var e, out := ReadStored(d, USERS, t, ino, s);
    ghost var w := d.vol;
    OnlyReadKeeps(v, w, ino);
    StoredOnly(v, w, t, USERS, ino, s);
    if e != FS_OK {
      return FS_ERR, s';
    }
    r, s' := Rewrite(d, TextOf(out), name, pass, t, ino, s);
    FrameTrans(v, w, d.vol, ino);
    StoredOnly(v, d.vol, t, USERS, ino, s);
  }

  // Over a file of valid records: the same records in order with the password of this name
  // replaced; the name then logs in with the new password only, the others as before.
  lemma ChangeThenLogin(us: seq<User>, name: Name, pass: Name, q: Str, w: Str)
    requires AllValid(us) && Plain(pass)
    ensures
      var all := PrintClipped(Repass(us, name, pass));
      && all == PrintAll(Repass(us, name, pass)) && Users(TextOf(all)) == Repass(us, name, pass)
      && AllValid(Repass(us, name, pass))
      && (Login(Users(TextOf(all)), q, w).Parsed?
          <==> if q == name then w == pass && Named(us, name) else Login(us, q, w).Parsed?)
  {
    hide Users, TextOf, Line, Plain;
    var r := Repass(us, name, pass);
    assert AllValid(r);
    PrintClippedValid(r);
    PrintAllClean(r);
    CleanText(PrintAll(r));
    UsersPrintAll(r);
    ChangedPassword(us, name, pass, q, w);
  }

  // ---- what a change that does not fit loses

  ghost predicate DistinctNames(us: seq<User>) {
    forall i, j :: 0 <= i < j < |us| ==> us[i].name != us[j].name
  }

  lemma NamedLast(us: seq<User>, name: Str)
    requires us != []
    ensures Named(us, name) <==> Named(us[..|us| - 1], name) || us[|us| - 1].name == name
  {
    var n := |us| - 1;
    if i :| 0 <= i < n && us[i].name == name {
      assert us[..n][i].name == name;
    }
  }

  lemma DistinctLast(us: seq<User>)
    requires us != [] && DistinctNames(us)
    ensures DistinctNames(us[..|us| - 1]) && !Named(us[..|us| - 1], us[|us| - 1].name)
  {
  }

  lemma NamedAt(us: seq<User>, i: nat)
    requires i < |us|
    ensures Named(us, us[i].name)
  {
  }

  lemma {:induction false} SubseqNamed(a: seq<User>, b: seq<User>, name: Str)
    requires Subseq(a, b) && Named(a, name)
    ensures Named(b, name)
    decreases |b|
  {
    var m, n := |a| - 1, |b| - 1;
    NamedSome(a, name);
    hide Named;
    NamedLast(b, name);
    if Subseq(a, b[..n]) {
      SubseqNamed(a, b[..n], name);
    } else {
      NamedLast(a, name);
      if Named(a[..m], name) {
        SubseqNamed(a[..m], b[..n], name);
      }
    }
  }

  lemma NamedSome(us: seq<User>, name: Str)
    requires Named(us, name)
    ensures us != []
  {
  }

  // When names differ and a record is left out, its name is gone.
  lemma {:induction false} LostName(a: seq<User>, b: seq<User>) returns (i: nat)
    requires Subseq(a, b) && a != b && DistinctNames(b)
    ensures i < |b| && !Named(a, b[i].name)
    decreases |b|
  {
    hide Named, DistinctNames;
    var n := |b| - 1;
    DistinctLast(b);
    if Subseq(a, b[..n]) {
      i := n;
      if Named(a, b[n].name) {
        SubseqNamed(a, b[..n], b[n].name);
      }
    } else {
      var m := |a| - 1;
      assert a == a[..m] + [b[n]] && b == b[..n] + [b[n]];
      i := LostName(a[..m], b[..n]);
      NamedAt(b[..n], i);
      NamedLast(a, b[i].name);
    }
  }

  lemma {:induction false} SubseqValid(a: seq<User>, b: seq<User>)
    requires Subseq(a, b) && AllValid(b)
    ensures AllValid(a)
    decreases |b|
  {
    hide Valid;
    if a != [] {
      if a[|a| - 1] == b[|b| - 1] && Subseq(a[..|a| - 1], b[..|b| - 1]) {
        SubseqValid(a[..|a| - 1], b[..|b| - 1]);
        assert a == a[..|a| - 1] + [b[|b| - 1]];
      } else {
        SubseqValid(a, b[..|b| - 1]);
      }
    }
  }
}
