/** Where a booster type's socket lies: invoker_init in src/invoker/invoker.cpp and SocketManager in
    src/launcherlib/socketmanager.cpp. */
module SocketPath {

  const NUL: char := '\0'

  /** The value of an environment variable. */
  datatype Variable = Unset | Value(text: CString)

  /** A C string without its NUL. */
  type CString = s: string | NUL !in s

  const SUBPATH: string := "/mapplauncherd/"
  const SUN_PATH := 108

  /** The text at the start of a buffer. */
  function Text(buf: seq<char>): (s: CString)
    ensures |s| <= |buf| && s == buf[..|s|]
  {
    if buf == [] || buf[0] == NUL then "" else [buf[0]] + Text(buf[1..])
  }

  function Cut(s: string, n: nat): string { if |s| <= n then s else s[..n] }

  function RuntimeDir(v: Variable, default: CString): CString {
    if v.Value? && v.text != "" then v.text else default
  }

  /** The invoker's path, and what it needs to connect. */
  function InvokerRoot(v: Variable): string { Cut(RuntimeDir(v, "/tmp"), SUN_PATH - 1 - |SUBPATH|) + SUBPATH }

  predicate Acceptable(v: Variable, appType: CString) {
    |InvokerRoot(v)| + |appType| <= SUN_PATH - 1 && '/' !in appType
  }

  /** The path the daemon binds. */
  function BoundPath(v: Variable, socketId: CString): string {
    Cut(RuntimeDir(v, "/tmp/") + "/mapplauncherd" + "/" + socketId, SUN_PATH - 1)
  }

  // ---- the buffers ----

  lemma {:induction false} TextIs(buf: seq<char>, s: CString)
    requires |s| < |buf| && buf[..|s|] == s && buf[|s|] == NUL
    ensures Text(buf) == s
  {
    if s != "" {
      assert buf[0] == s[0] && s[0] in s;
      assert buf[1..][..|s| - 1] == s[1..];
      TextIs(buf[1..], s[1..]);
    }
  }

  method Strncpy(buf: array<char>, src: CString, n: nat)
    requires n <= buf.Length
    modifies buf
    ensures forall k :: 0 <= k < n ==> buf[k] == if k < |src| then src[k] else NUL
    ensures forall k :: n <= k < buf.Length ==> buf[k] == old(buf[k])
  {
    forall k | 0 <= k < n {
      buf[k] := if k < |src| then src[k] else NUL;
    }
  }

  /** The text, its NUL and what is appended must all fit. */
  method Strcat(buf: array<char>, src: CString, ghost text: CString)
    requires |text| + |src| < buf.Length && buf[..|text|] == text && buf[|text|] == NUL
    modifies buf
    ensures buf[..|text| + |src|] == text + src && buf[|text| + |src|] == NUL
  {
    var at := Strlen(buf, text);
    forall k | 0 <= k < |src| {
      buf[at + k] := src[k];
    }
    buf[at + |src|] := NUL;
    assert buf[..at] == text;
  }

  method Strlen(buf: array<char>, ghost text: CString) returns (n: nat)
    requires |text| < buf.Length && buf[..|text|] == text && buf[|text|] == NUL
    ensures n == |text|
  {
    n := 0;
    while buf[n] != NUL
      invariant n <= |text|
      decreases |text| - n
    {
      n := n + 1;
    }
    assert forall k :: 0 <= k < |text| ==> buf[k] == text[k] && text[k] in text;
  }

  /** invoker_init up to connect.  Every write is within the 108 characters; the path in them ends before the last. */
  method InvokerPath(v: Variable, appType: CString, sunPath: array<char>) returns (ok: bool)
    requires sunPath.Length == SUN_PATH
    modifies sunPath
    ensures ok <==> Acceptable(v, appType)
    ensures v.Value? && v.text != "" ==>
              (ok <==> (if |v.text| < 92 then |v.text| else 92) + 15 + |appType| <= 107 && '/' !in appType)
    ensures v.Unset? || v.text == "" ==> (ok <==> 4 + 15 + |appType| <= 107 && '/' !in appType)
    ensures ok ==> Text(sunPath[..]) == InvokerRoot(v) + appType && |InvokerRoot(v) + appType| < SUN_PATH
  {
    var maxSize := SUN_PATH - 1;
    ghost var root := PutRoot(v, sunPath);
    var len := Strlen(sunPath, root);
    maxSize := maxSize - len;
    if maxSize < |appType| || '/' in appType {
      return false;
    }
    Strcat(sunPath, appType, root);
    TextIs(sunPath[..], root + appType);
    ok := true;
  }

  /** The directory, cut so that the name after it fits. */
  method PutRoot(v: Variable, sunPath: array<char>) returns (ghost root: CString)
    requires sunPath.Length == SUN_PATH
    modifies sunPath
    ensures root == InvokerRoot(v) && |root| < SUN_PATH && sunPath[..|root|] == root && sunPath[|root|] == NUL
  {
    var room := SUN_PATH - 1 - |SUBPATH|;
    ghost var dir := Cut(RuntimeDir(v, "/tmp"), room);
    if v.Value? && v.text != "" {
      Strncpy(sunPath, v.text, room);
    } else {
      Strncpy(sunPath, "/tmp", room);
    }
    sunPath[room] := NUL;
    assert sunPath[..|dir|] == dir;
    Strcat(sunPath, SUBPATH, dir);
    root := dir + SUBPATH;
  }

  /** The constructor and initSocket up to bind. */
  method ManagerPath(v: Variable, socketId: CString, sunPath: array<char>)
    requires sunPath.Length == SUN_PATH
    modifies sunPath
    ensures Text(sunPath[..]) == BoundPath(v, socketId) && |BoundPath(v, socketId)| < SUN_PATH
  {
    var runtimeDir: CString := "/tmp/";
    if v.Value? && v.text != "" {
      runtimeDir := v.text;
    }
    var socketRootPath: CString := runtimeDir;
    socketRootPath := socketRootPath + "/mapplauncherd";
    socketRootPath := socketRootPath + "/";
    var socketPath: CString := socketRootPath + socketId;
    Strncpy(sunPath, socketPath, SUN_PATH - 1);
    sunPath[SUN_PATH - 1] := NUL;
    var path: CString := Cut(socketPath, SUN_PATH - 1);
    assert sunPath[..][..|path|] == path;
    TextIs(sunPath[..], path);
  }

  /** The two paths in words and numbers, without and with a runtime directory. */
  lemma PathsWithoutDirectory(v: Variable, appType: CString)
    requires v.Unset? || v.text == ""
    ensures InvokerRoot(v) + appType == "/tmp/mapplauncherd/" + appType
    ensures BoundPath(v, appType) == "/tmp//mapplauncherd/" + if |appType| <= 87 then appType else appType[..87]
  {
    hide InvokerRoot, BoundPath;
    Literals();
    RootsWithoutDirectory(v, appType);
    assert "/tmp" + SUBPATH == "/tmp/mapplauncherd/" && "/tmp" + "/" + SUBPATH == "/tmp//mapplauncherd/";
  }

  lemma PathsWithDirectory(v: Variable, appType: CString)
    requires v.Value? && v.text != ""
    ensures InvokerRoot(v) == (if |v.text| <= 92 then v.text else v.text[..92]) + "/mapplauncherd/"
    ensures |v.text| + 15 + |appType| <= 107 ==> BoundPath(v, appType) == v.text + "/mapplauncherd/" + appType
  {
    Literals();
    assert v.text + "/mapplauncherd" + "/" + appType == v.text + SUBPATH + appType;
  }

  // ---- the two paths ----

  /** A path with every run of slashes made one: two paths that come to the same name the same file. */
  function Collapsed(s: string): (c: string)
    ensures |c| <= |s|
  {
    if s == "" then ""
    else if |s| > 1 && s[0] == '/' && s[1] == '/' then Collapsed(s[1..])
    else [s[0]] + Collapsed(s[1..])
  }

  lemma {:induction false} NameStays(root: string, name: string)
    requires '/' !in name
    ensures Collapsed(root + name) == Collapsed(root) + name
  {
    var s := root + name;
    if root == "" {
      assert s == name;
      if name != "" {
        NameStays("", name[1..]);
        assert "" + name[1..] == name[1..];
      }
    } else {
      assert s[1..] == root[1..] + name;
      NameStays(root[1..], name);
    }
  }

  lemma {:induction false} SlashCollapses(a: string, tail: string)
    requires tail != "" && tail[0] == '/'
    ensures Collapsed(a + "/" + tail) == Collapsed(a + tail)
  {
    var s, t := a + "/" + tail, a + tail;
    if a == "" {
      assert s[1..] == tail == t;
    } else {
      assert s[1..] == a[1..] + "/" + tail && t[1..] == a[1..] + tail;
      SlashCollapses(a[1..], tail);
    }
  }

  lemma Literals()
    ensures "/tmp/" == "/tmp" + "/" && "/mapplauncherd" + "/" == SUBPATH && |SUBPATH| == 15 && SUBPATH[0] == '/'
  {
  }

  lemma RootsWithoutDirectory(v: Variable, appType: CString)
    requires v.Unset? || v.text == ""
    ensures InvokerRoot(v) == "/tmp" + SUBPATH
    ensures BoundPath(v, appType) == "/tmp" + "/" + SUBPATH + Cut(appType, 87)
  {
    Literals();
    var root := "/tmp" + "/" + SUBPATH;
    assert "/tmp/" + "/mapplauncherd" + "/" == root;
    assert Cut(root + appType, 107) == root + Cut(appType, 87);
  }

  lemma RootsWithDirectory(v: Variable, appType: CString)
    requires v.Value? && v.text != "" && Acceptable(v, appType) && appType != ""
    ensures InvokerRoot(v) + appType == BoundPath(v, appType)
  {
    Literals();
    assert v.text + "/mapplauncherd" + "/" + appType == v.text + SUBPATH + appType;
  }

  /** For every runtime directory and every type the invoker accepts, it connects to the path the daemon binds, up
      to repeated slashes, except when there is no runtime directory and the type is 88 characters long: the
      daemon's path is one slash longer then, and loses the type's last character. */
  lemma PathsAgree(v: Variable, appType: CString)
    requires Acceptable(v, appType) && appType != ""
    ensures Collapsed(InvokerRoot(v) + appType) == Collapsed(BoundPath(v, appType)) <==>
            !((v.Unset? || v.text == "") && |appType| == 88)
  {
    hide InvokerRoot, BoundPath, Collapsed;
    if v.Unset? || v.text == "" {
      RootsWithoutDirectory(v, appType);
      Literals();
      NameStays("/tmp" + SUBPATH, appType);
      NameStays("/tmp" + "/" + SUBPATH, Cut(appType, 87));
      SlashCollapses("/tmp", SUBPATH);
    } else {
      RootsWithDirectory(v, appType);
    }
  }
}
