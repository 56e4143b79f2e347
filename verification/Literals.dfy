/** The texts of the program as they stand in its source: paths, keys, lines, and the modes. */
module Literals {
  import opened Layout
  import opened Records
  import opened FileIo
  import opened Paths
  import opened Namespace
  import opened Files
  import opened Text
  import opened Accounts
  import opened Sessions

  // The bytes of a text.
  function Ascii(s: string): (b: seq<Byte>)
    requires forall i :: 0 <= i < |s| ==> s[i] < 128 as char
    ensures |b| == |s| && forall i :: 0 <= i < |s| ==> b[i] == s[i] as int
  {
    seq(|s|, i requires 0 <= i < |s| => s[i] as int)
  }

  lemma PathTexts()
    ensures USERS == Ascii("/.users") && USERS_LEAF == Ascii(".users") && SESSION == Ascii("/.session")
    ensures DOT == Ascii(".") && DOTDOT == Ascii("..") && [SLASH] == Ascii("/") && [W] == Ascii("w")
  {
  }

  lemma RecordTexts()
    ensures ROOT_LINE == Ascii("root:root:0\n") && RootUser() == User(Ascii("root"), Ascii("root"), 0)
    ensures UID_KEY == Ascii("uid:") && USER_KEY == Ascii("user:")
    ensures [COLON] == Ascii(":") && [NEWLINE] == Ascii("\n")
  {
  }

  // The session text and a line of the users file, for any user.
  lemma LineTexts(uid: int, user: Str, pass: Str)
    ensures SessionText(uid, user) == Ascii("uid:") + PrintInt(uid) + Ascii("\nuser:") + user + Ascii("\n")
    ensures Line(User(user, pass, uid)) == user + Ascii(":") + pass + Ascii(":") + PrintInt(uid) + Ascii("\n")
  {
    RecordTexts();
    assert Ascii("\nuser:") == [NEWLINE] + USER_KEY;
  }

  // Mode 0644 lets everybody read and the owner and root write, mode 0755 likewise.
  lemma Modes(x: Inode, uid: int)
    requires x.mode == MODE_FILE || x.mode == MODE_DIR
    ensures PermCanRead(x, uid) && (PermCanWrite(x, uid) <==> uid == 0 || x.uid == uid % 65536)
    ensures IsDir(x) <==> x.mode == MODE_DIR
  {
  }
}
