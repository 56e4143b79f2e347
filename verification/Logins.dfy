/** The account operations of security.c one after the other, on the device. */
module Logins {
  import opened Layout
  import opened Records
  import opened Volume
  import opened Device
  import opened FileIo
  import opened Directory
  import opened Namespace
  import opened Files
  import opened Store
  import opened Text
  import opened Parsing
  import opened Accounts
  import opened Sessions

  // A text of valid records reads back as the records.
  lemma UsersBack(us: seq<User>)
    requires AllValid(us)
    ensures Users(TextOf(PrintAll(us))) == us
  {
    PrintAllClean(us);
    CleanText(PrintAll(us));
    UsersPrintAll(us);
  }

  // session_save, then session_load: whatever the file held before, a session that was saved loads
  // as the same uid and user, exactly when the user at the time may read the file.
  method SaveLoad(d: Disk, uid: int, user: Str, ghost t: Tree, ghost ino: nat, ghost s: seq<Byte>)
    returns (saved: int, r: int)
    requires d.Ok() && StoredOrAbsent(d.vol, t, SESSION, ino, s)
    requires IsInt(uid) && Plain(user) && user != []
    modifies d`dev, d`vol, d`images, d`trace, d`sb, d`gd, d`ofile, d`uid, d`user
    ensures d.Ok()
    ensures 1 <= ino <= 256 ==>
      Saved(old(d.vol), ino, old(d.uid), old(d.ofile), old(d.sb.freeBlocks), SessionText(uid, user), saved)
    ensures ino == 0 ==> saved == SavedNew(old(d.vol), old(d.ofile), old(d.sb))
    ensures saved == FS_OK ==>
      && (r == FS_OK <==> ino == 0 || PermCanRead(old(d.vol).inodes[ino], old(d.uid)))
      && (r == FS_OK ==> d.uid == uid && d.user == user)
    ensures r != FS_OK ==> d.uid == old(d.uid) && d.user == old(d.user)
  {
    hide Decodes, Recorded, Sound, Stored, SessionText, PermCanRead, PermCanWrite, OthersKept, PathsKept, ParseSession;
    hide Fits, HasRoom, EntryCost, TextOf, Plain, StoredOrAbsent, AllUsed, SameOpen;
    ghost var t', ino', s';
    ghost var v, before := d.vol, d.ofile;
    StoredOrAbsentRange(v, t, SESSION, ino, s);
    PlainLength(user);
    saved, t', ino', s' := SessionSave(d, uid, user, t, ino, s);
    StoredOrAbsentRange(d.vol, t', SESSION, ino', s');
    SameOpenAll(before, d.ofile, d.ofile);
    SaveThenLoad(uid, user);
    if ino != 0 {
      SamePerm(v.inodes[ino], d.vol.inodes[ino], d.uid);
    } else if ino' != 0 {
      OwnerReads(d.vol.inodes[ino'], d.uid);
    }
    r := SessionLoad(d, t', ino', s');
  }

  lemma PlainLength(s: Str)
    requires Plain(s)
    ensures |s| <= 15 && Clip(s, 15) == s
  {
  }

  // The owner of a file that fs_open made may read it.
  lemma OwnerReads(x: Inode, uid: int)
    requires x.mode == MODE_FILE && x.uid == uid % 0x1_0000
    ensures PermCanRead(x, uid)
  {
  }

  // The bytes that break a line into fields and a text into lines.
  predicate OneField(s: Str) {
    58 !in s && 10 !in s
  }

  // users_add by root, then users_login with any pair. Beside the pairs that logged in before, those
  // log in that the new line holds: the new pair if it has short fields, no pair if it has not, and
  // with a colon or a newline in a field whatever the line is then read as.
  method AddLogin(d: Disk, name: Name, pass: Name, q: Name, w: Name, ghost us: seq<User>, ghost t: Tree,
                  ghost ino: nat, ghost session: nat, ghost s: seq<Byte>)
    returns (added: int, r: int)
    requires d.Ok() && d.uid == 0 && AllValid(us) && MaxUid(us) < 0x7fff_ffff
    requires Stored(d.vol, t, USERS, ino, PrintAll(us)) && StoredOrAbsent(d.vol, t, SESSION, session, s)
    requires ino != session
    modifies d`dev, d`vol, d`images, d`trace, d`sb, d`gd, d`ofile, d`uid, d`user
    ensures d.Ok() && 1 <= ino <= 256
    ensures
      var line := Clip(Line(User(name, pass, MaxUid(us) + 1)), 255);
      var fits := Fits(old(d.vol).data, old(d.vol).inodes[ino], |PrintAll(us)|, |line|, old(d.sb.freeBlocks));
      added == (if AllUsed(old(d.ofile)) then FS_ERR
                else if Named(us, name) then FS_EEXIST
                else if fits then FS_OK else FS_ENOSPC)
    ensures added == FS_OK ==>
      var more := Users(Clip(Line(User(name, pass, MaxUid(us) + 1)), 255));
      && (r == FS_OK <==> Login(us, q, w).Parsed? || Login(more, q, w).Parsed?)
      && (OneField(name) && OneField(pass) ==>
            more == if |name| < 16 && |pass| < 16 then [User(name, pass, MaxUid(us) + 1)] else [])
    ensures added == FS_OK && q == name && w == pass ==> (r == FS_OK <==> Plain(name) && Plain(pass))
    ensures r == FS_OK && q == name && w == pass ==> d.uid == MaxUid(us) + 1
    ensures r == FS_OK ==> d.user == q && (Login(us, q, w).Parsed? ==> d.uid == Login(us, q, w).user.uid)
    ensures r != FS_OK ==> d.uid == old(d.uid) && d.user == old(d.user)
    ensures added != FS_OK ==> r == added
  {
    hide Decodes, Recorded, Sound, Stored, StoredOrAbsent, PermCanWrite, OnlyFile, Plain, Line, Users, TextOf, Fits;
    hide SameOpen, AllUsed, Named, MaxUid, AllValid, Login, PrintAll, SessionText, HasRoom, EntryCost, OneField;
    ghost var v, before := d.vol, d.ofile;
    UsersBack(us);
    ghost var u := User(name, pass, MaxUid(us) + 1);
    ghost var line := Clip(Line(u), 255);
    added := UsersAdd(d, name, pass, t, ino, PrintAll(us));
    if added != FS_OK {
      return added, added;
    }
    AddedRecords(us, u);
    LoginConcat(us, Users(line), q, w);
    if OneField(name) && OneField(pass) {
      LineOfNew(u);
    }
    AddedPair(us, name, pass);
    OnlyFileOther(v, d.vol, t, ino, SESSION, session, s);
    SameOpenAll(before, d.ofile, d.ofile);
    ghost var saved, t', session', s';
    r, saved, t', session', s' := UsersLogin(d, q, w, t, ino, PrintAll(us) + line, session, s);
    if r == FS_OK {
      OnlyPlainLogsIn(PrintAll(us) + line, q, w);
      PlainLength(q);
    }
  }

  // The records of the file with the new line are the old ones and those that the line holds.
  lemma AddedRecords(us: seq<User>, u: User)
    requires AllValid(us) && 0 !in u.name && 0 !in u.pass
    ensures Users(TextOf(PrintAll(us) + Clip(Line(u), 255))) == us + Users(Clip(Line(u), 255))
  {
    hide Users, Lines, ParseAll;
    var line := Clip(Line(u), 255);
    PrintAllClean(us);
    assert 0 !in line by {
      hide PrintInt;
      IntClean(u.uid);
    }
    CleanText(PrintAll(us) + line);
    PrintAllEnds(us);
    UsersSplit(PrintAll(us), line);
    UsersPrintAll(us);
  }

  lemma {:induction false} PrintAllEnds(us: seq<User>)
    ensures PrintAll(us) == [] || PrintAll(us)[|PrintAll(us)| - 1] == 10
  {
    hide Body;
    if us != [] {
      PrintAllEnds(us[1..]);
    }
  }

  // The buffer of 256 bytes does not change what a line is read as.
  lemma LineUsers(u: User)
    requires 10 !in Body(u)
    ensures Users(Clip(Line(u), 255)) == Record(Body(u))
  {
    hide Users, Body, ParseLine;
    var b := Body(u);
    UsersOfLine(b);
    if |b| >= 255 {
      assert Clip(b + [10], 255) == Clip(b, 255);
      ClipParses(b);
      assert forall i :: 0 <= i < |Clip(b, 255)| ==> Clip(b, 255)[i] == b[i] && b[i] in b;
      UsersOfLine(Clip(b, 255));
    }
  }

  // A new line of fields without colon and newline is the new record if its fields are short, and
  // none if they are not.
  lemma LineOfNew(u: User)
    requires OneField(u.name) && OneField(u.pass) && IsInt(u.uid)
    ensures Users(Clip(Line(u), 255)) == if |u.name| < 16 && |u.pass| < 16 then [u] else []
  {
    hide Users, Atoi, PrintInt, ParseLine;
    IntPlain(u.uid);
    LineUsers(u);
    ParseSplit(u.name, u.pass, PrintInt(u.uid), []);
    assert u.name + [58] + u.pass + [58] + PrintInt(u.uid) + [] == Body(u);
    AtoiPrintInt(u.uid, []);
    assert PrintInt(u.uid) + [] == PrintInt(u.uid);
  }

  // A colon in the name moves the fields: the line is then a record of the part before the colon with
  // the part behind it as its password, if these and what is left are short, and else none.
  lemma ColonName(x: Str, y: Str, pass: Str, uid: int)
    requires OneField(x) && OneField(y) && OneField(pass) && IsInt(uid)
    ensures
      var n := pass + [58] + PrintInt(uid);
      Users(Clip(Line(User(x + [58] + y, pass, uid)), 255))
        == if |x| < 16 && |y| < 16 && |n| < 16 then [User(x, y, Atoi(n))] else []
  {
    hide Users, Atoi, PrintInt, ParseLine;
    IntPlain(uid);
    var u, n := User(x + [58] + y, pass, uid), pass + [58] + PrintInt(uid);
    assert Body(u) == x + [58] + y + [58] + n + [];
    assert 10 !in n;
    LineUsers(u);
    ParseSplit(x, y, n, []);
  }

  lemma {:induction false} LoginConcat(a: seq<User>, b: seq<User>, name: Str, pass: Str)
    ensures Login(a + b, name, pass)
      == if Login(a, name, pass).Parsed? then Login(a, name, pass) else Login(b, name, pass)
  {
    if a == [] {
      assert a + b == b;
    } else {
      assert (a + b)[1..] == a[1..] + b;
      LoginConcat(a[1..], b, name, pass);
    }
  }

  // Whether the new pair itself logs in.
  lemma AddedPair(us: seq<User>, name: Name, pass: Name)
    requires AllValid(us) && MaxUid(us) < 0x7fff_ffff
    ensures
      var u := User(name, pass, MaxUid(us) + 1);
      var found := Login(Users(TextOf(PrintAll(us) + Clip(Line(u), 255))), name, pass);
      && (found.Parsed? && !Named(us, name) ==> found.user == u)
      && (!Named(us, name) ==> (found.Parsed? <==> Plain(name) && Plain(pass)))
  {
    hide Line, Users, TextOf, Login, Named, MaxUid, AllValid, PrintAll;
    var u := User(name, pass, MaxUid(us) + 1);
    var s := PrintAll(us) + Clip(Line(u), 255);
    if Login(Users(TextOf(s)), name, pass).Parsed? {
      OnlyPlainLogsIn(s, name, pass);
    }
    if Plain(name) && Plain(pass) && !Named(us, name) {
      AddedRecords(us, u);
      LineOfNew(u);
      LoginAppend(us, u);
    }
  }

  lemma OnlyFileOther(v: Vol, w: Vol, t: Tree, ino: nat, path: Name, o: nat, s: seq<Byte>)
    requires 1 <= ino <= 256 && OnlyFile(v, w, t, ino) && StoredOrAbsent(v, t, path, o, s) && o != ino
    ensures StoredOrAbsent(w, t, path, o, s) && (1 <= o <= 256 ==> w.inodes[o] == v.inodes[o])
  {
    hide StoredOrAbsent, OthersKept, PathsKept;
    KeptOther(v, w, t, ino, path, o, s);
  }

  // users_change_password by root, then users_login with any pair, if the rewritten file fits: the
  // name logs in with the new password exactly when the line format can carry it, and then with no
  // other, and every other pair as before.
  method ChangeLogin(d: Disk, name: Name, pass: Name, q: Name, w: Name, ghost us: seq<User>, ghost t: Tree,
                     ghost ino: nat,
                     ghost session: nat, ghost s: seq<Byte>)
    returns (changed: int, r: int)
    requires d.Ok() && d.uid == 0 && AllValid(us)
    requires Stored(d.vol, t, USERS, ino, PrintAll(us)) && StoredOrAbsent(d.vol, t, SESSION, session, s)
    requires ino != session
    modifies d`dev, d`vol, d`images, d`trace, d`sb, d`gd, d`ofile, d`uid, d`user
    ensures d.Ok() && 1 <= ino <= 256 && changed == if AllUsed(old(d.ofile)) then FS_ERR else FS_OK
    ensures
      var all := PrintClipped(Repass(us, name, pass));
      changed == FS_OK && Fits(old(d.vol).data, old(d.vol).inodes[ino], 0, |all|, old(d.sb.freeBlocks)) ==>
        && (q == name && w == pass ==> (r == FS_OK <==> Plain(pass) && Named(us, name)))
        && (Plain(pass) ==>
              (r == FS_OK <==> if q == name then w == pass && Named(us, name) else Login(us, q, w).Parsed?))
    ensures r == FS_OK ==> d.user == Clip(q, 15)
  {
    hide Decodes, Recorded, Sound, Stored, StoredOrAbsent, PermCanWrite, OnlyFile, Plain, Line, Users, TextOf;
    hide Fits, Subseq;
    hide SameOpen, AllUsed, Named, AllValid, Login, PrintAll, SessionText, HasRoom, EntryCost, Repass, PrintClipped;
    ghost var v, before := d.vol, d.ofile;
    UsersBack(us);
    if Plain(pass) {
      ChangeThenLogin(us, name, pass, q, w);
    }
    StoredRange(v, t, USERS, ino, PrintAll(us));
    RootMay(v.inodes[ino]);
    ghost var s';
    changed, s' := UsersChangePassword(d, name, pass, t, ino, PrintAll(us));
    if changed != FS_OK {
      return changed, changed;
    }
    if Login(Users(TextOf(s')), q, w).Parsed? {
      OnlyPlainLogsIn(s', q, w);
    }
    OnlyFileOther(v, d.vol, t, ino, SESSION, session, s);
    SameOpenAll(before, d.ofile, d.ofile);
    RootMay(d.vol.inodes[ino]);
    ghost var saved, t', session', s'';
    r, saved, t', session', s'' := UsersLogin(d, q, w, t, ino, s', session, s);
  }

  // users_change_password by root when the rewritten file does not fit: the answer is FS_OK, and of
  // the users, whose names differ, one is gone from the file.
  method ChangeLoses(d: Disk, name: Name, pass: Name, ghost us: seq<User>, ghost t: Tree, ghost ino: nat)
    returns (r: int, ghost kept: seq<User>, ghost lost: Str)
    requires d.Ok() && d.uid == 0 && AllValid(us) && DistinctNames(us) && Plain(pass) && !AllUsed(d.ofile)
    requires Stored(d.vol, t, USERS, ino, PrintAll(us)) && 1 <= ino <= 256
    requires !Fits(d.vol.data, d.vol.inodes[ino], 0, |PrintAll(Repass(us, name, pass))|, d.sb.freeBlocks)
    modifies d`dev, d`vol, d`images, d`trace, d`sb, d`gd, d`ofile
    ensures d.Ok() && r == FS_OK && Stored(d.vol, t, USERS, ino, PrintAll(kept))
    ensures AllValid(kept) && Users(TextOf(PrintAll(kept))) == kept && Subseq(kept, Repass(us, name, pass))
    ensures Named(us, lost) && !Named(kept, lost)
  {
    hide Decodes, Recorded, Sound, Stored, Users, TextOf, Line, Fits, OnlyFile, AllUsed, SameOpen, Named, PrintAll;
    hide PrintClipped, AllValid, DistinctNames, Subseq, Plain;
    UsersBack(us);
    ghost var target, s := Repass(us, name, pass), [];
    RepassKeeps(us, name, pass);
    RootMay(d.vol.inodes[ino]);
    r, s := UsersChangePassword(d, name, pass, t, ino, PrintAll(us));
    kept :| Subseq(kept, target) && s == PrintClipped(kept);
    SubseqValid(kept, target);
    PrintClippedValid(kept);
    UsersBack(kept);
    ghost var i := LostName(kept, target);
    lost := target[i].name;
    NamedAt(us, i);
  }

  // A new password leaves the records valid and their names different.
  lemma RepassKeeps(us: seq<User>, name: Name, pass: Name)
    requires AllValid(us) && DistinctNames(us) && Plain(pass)
    ensures AllValid(Repass(us, name, pass)) && DistinctNames(Repass(us, name, pass))
    ensures PrintClipped(Repass(us, name, pass)) == PrintAll(Repass(us, name, pass))
  {
    hide Plain, PrintClipped, PrintAll;
    PrintClippedValid(Repass(us, name, pass));
  }

  lemma RootMay(x: Inode)
    ensures PermCanRead(x, 0) && PermCanWrite(x, 0)
  {
  }

  // Two logins where there was no session file: root's, which makes it, and then another user's.
  // The second one is not saved, unless its uid is that of root for the file system; the session
  // stays root's, and that is what session_load restores.
  method LoginAfterRoot(d: Disk, root: Name, rootPass: Name, name: Name, pass: Name, ghost t: Tree,
                        ghost ino: nat, ghost us: seq<Byte>)
    returns (r1: int, r2: int, ghost saved1: int, ghost saved2: int, r3: int)
    requires d.Ok() && Stored(d.vol, t, USERS, ino, us) && StoredOrAbsent(d.vol, t, SESSION, 0, [])
    requires Login(Users(TextOf(us)), root, rootPass).Parsed? && Login(Users(TextOf(us)), root, rootPass).user.uid == 0
    requires Plain(root) && root != []
    modifies d`dev, d`vol, d`images, d`trace, d`sb, d`gd, d`ofile, d`uid, d`user
    ensures d.Ok() && 1 <= ino <= 256
    ensures r1 == FS_OK <==> PermCanRead(old(d.vol).inodes[ino], old(d.uid)) && !AllUsed(old(d.ofile))
    ensures r1 == FS_OK ==> saved1 == SavedNew(old(d.vol), old(d.ofile), old(d.sb))
    ensures r1 == FS_OK ==> (r2 == FS_OK <==> Login(Users(TextOf(us)), name, pass).Parsed?)
    ensures r1 == FS_OK && saved1 == FS_OK && r2 == FS_OK ==>
      var uid := Login(Users(TextOf(us)), name, pass).user.uid;
      && (saved2 == FS_EPERM <==> uid % 0x1_0000 != 0)
      && (saved2 == FS_EPERM ==> r3 == FS_OK && d.uid == 0 && d.user == root)
  {
    hide Decodes, Recorded, Sound, Stored, StoredOrAbsent, PermCanRead, PermCanWrite, Users, TextOf, Fits, SessionText;
    hide Plain, Login, SameOpen, AllUsed, HasRoom, EntryCost, OthersKept, PathsKept, ParseSession;
    ghost var before := d.ofile;
    StoredRange(d.vol, t, USERS, ino, us);
    ghost var t1, session, s;
    r1, saved1, t1, session, s := UsersLogin(d, root, rootPass, t, ino, us, 0, []);
    r2, saved2, r3 := FS_ERR, FS_ERR, FS_ERR;
    if r1 != FS_OK {
      return;
    }
    SameOpenAll(before, d.ofile, d.ofile);
    RootMay(d.vol.inodes[ino]);
    StoredOrAbsentRange(d.vol, t1, SESSION, session, s);
    PlainLength(root);
    ghost var v, mid := d.vol, d.ofile;
    ghost var t2, session2, s2;
    r2, saved2, t2, session2, s2 := UsersLogin(d, name, pass, t1, ino, us, session, s);
    if session != 0 {
      RootSessionStays(v.inodes[session], d.uid);
      RootSessionStays(d.vol.inodes[session], d.uid);
    }
    if r2 != FS_OK {
      return;
    }
    StoredOrAbsentRange(d.vol, t2, SESSION, session2, s2);
    SaveThenLoad(0, root);
    SameOpenAll(mid, d.ofile, d.ofile);
    r3 := SessionLoad(d, t2, session2, s2);
  }

  // A user's own password, where the users file belongs to root as fs_format leaves it: the change
  // is refused exactly when the uid is not that of root for the file system.
  method OwnPassword(d: Disk, name: Name, pass: Name, next: Name, ghost t: Tree, ghost ino: nat, ghost us: seq<Byte>,
                     ghost session: nat, ghost s: seq<Byte>)
    returns (r: int, changed: int)
    requires d.Ok() && Stored(d.vol, t, USERS, ino, us) && StoredOrAbsent(d.vol, t, SESSION, session, s)
    requires ino != session
    requires 1 <= ino <= 256 && d.vol.inodes[ino].mode == MODE_FILE && d.vol.inodes[ino].uid == 0
    modifies d`dev, d`vol, d`images, d`trace, d`sb, d`gd, d`ofile, d`uid, d`user
    ensures d.Ok()
    ensures r == FS_OK <==>
      PermCanRead(old(d.vol).inodes[ino], old(d.uid)) && !AllUsed(old(d.ofile))
      && Login(Users(TextOf(us)), name, pass).Parsed?
    ensures r == FS_OK ==> changed == if d.uid % 0x1_0000 != 0 then FS_EPERM else FS_OK
    ensures r == FS_OK ==>
      var u := Login(Users(TextOf(us)), name, pass);
      u.Parsed? && d.uid == u.user.uid && d.user == name
  {
    hide Decodes, Recorded, Sound, Stored, StoredOrAbsent, PermCanRead, PermCanWrite, Users, TextOf, Fits, SessionText;
    hide Plain, Login, SameOpen, AllUsed, HasRoom, EntryCost, OnlyFile, Repass, Subseq, PrintClipped;
    ghost var before := d.ofile;
    ghost var saved, t', session', s', us';
    r, saved, t', session', s' := UsersLogin(d, name, pass, t, ino, us, session, s);
    changed := FS_ERR;
    if r == FS_OK {
      OnlyPlainLogsIn(us, name, pass);
      PlainLength(name);
      SameOpenAll(before, d.ofile, d.ofile);
      RootSessionStays(d.vol.inodes[ino], d.uid);
      changed, us' := UsersChangePassword(d, name, next, t', ino, us);
    }
  }
}
