/**
 * Path helpers of src/path.c.
 *
 * A C string is modelled by the characters before its terminating NUL, so
 * `"abc"` stands for the four bytes `a b c \0`.  A sequence with a `'\0'`
 * inside stands for no C string (`strlen` and `strrchr` would stop at it),
 * so what the operations below compute for one says nothing about C.
 * Pointers into a string are indices.  `malloc`, `strdup` and `strndup`
 * can fail: the outcome of the allocation is a parameter (`allocOk`) and a
 * failure yields `None`, the function's NULL.
 */
module XcpPath {
  import opened Wrappers

  // ---------------------------------------------------------------------------
  // Strings of slashes.

  predicate AllSlashes(s: string) {
    forall i :: 0 <= i < |s| ==> s[i] == '/'
  }

  /** `s` with its trailing run of slashes removed. */
  function TrimTrailingSlashes(s: string): (t: string)
    ensures |t| <= |s| && t == s[..|t|]
    ensures AllSlashes(s[|t|..])
    ensures t == [] || t[|t| - 1] != '/'
  {
    if s != [] && s[|s| - 1] == '/' then
      var t := TrimTrailingSlashes(s[..|s| - 1]);
      assert s[|t|..] == s[..|s| - 1][|t|..] + ['/'];
      t
    else
      s
  }

  /** The trimmed prefix is the only prefix with those three properties. */
  lemma {:induction false} TrimTrailingSlashesUnique(s: string, k: nat)
    requires k <= |s| && AllSlashes(s[k..])
    requires k == 0 || s[k - 1] != '/'
    ensures TrimTrailingSlashes(s) == s[..k]
    decreases |s|
  {
    assert k < |s| ==> s[k..][|s| - 1 - k] == s[|s| - 1];
    if s != [] && s[|s| - 1] == '/' {
      var s' := s[..|s| - 1];
      assert s'[k..] == s[k..|s| - 1];
      TrimTrailingSlashesUnique(s', k);
      assert s'[..k] == s[..k];
    }
  }

  /** `strrchr(s, '/')`: the index of the last slash of `s`, if any. */
  function LastSlash(s: string): (r: Option<nat>)
    ensures r.None? <==> '/' !in s
    ensures r.Some? ==> r.value < |s| && s[r.value] == '/' && '/' !in s[r.value + 1..]
  {
    if s == [] then None
    else if s[|s| - 1] == '/' then Some(|s| - 1)
    else
      var r := LastSlash(s[..|s| - 1]);
      assert s == s[..|s| - 1] + [s[|s| - 1]];
      if r.Some? then
        assert s[r.value + 1..] == s[..|s| - 1][r.value + 1..] + [s[|s| - 1]];
        r
      else
        r
  }

  // ---------------------------------------------------------------------------
  // xcp_path_is_abs and xcp_path_combine (src/path.c:25-53).

  /** `xcp_path_is_abs`: the path starts with a slash. */
  predicate IsAbs(pathname: string) {
    |pathname| > 0 && pathname[0] == '/'
  }

  lemma {:induction false} IsAbsIsSlashPrefix(pathname: string)
    ensures IsAbs(pathname) <==> "/" <= pathname
    ensures !IsAbs("")
  {
    if "/" <= pathname {
      assert pathname[0] == "/"[0];
    }
    if IsAbs(pathname) {
      assert pathname[..1] == "/";
    }
  }

  /** The separator `xcp_path_combine` inserts after a non-empty `pathname`. */
  function Separator(pathname: string): string
    requires pathname != []
  {
    if pathname[|pathname| - 1] != '/' then "/" else ""
  }

  /** The string `xcp_path_combine` builds, before its terminator. */
  function Joined(pathname: string, subpath: string): string {
    if pathname == [] || IsAbs(subpath) then subpath
    else pathname + Separator(pathname) + subpath
  }

  /** An absolute `subpath`, or an empty `pathname`, is returned unchanged. */
  lemma {:induction false} JoinedIgnoresBase(pathname: string, subpath: string)
    requires pathname == [] || IsAbs(subpath)
    ensures Joined(pathname, subpath) == subpath
  {
  }

  /**
   * Otherwise `subpath` is appended to `pathname` with exactly one slash
   * between them: one is added only when `pathname` does not already end in
   * a slash.
   */
  lemma {:induction false} JoinedAppends(pathname: string, subpath: string)
    requires pathname != [] && !IsAbs(subpath)
    ensures var r := Joined(pathname, subpath);
      var sep := if pathname[|pathname| - 1] == '/' then 0 else 1;
      |r| == |pathname| + sep + |subpath|
      && r[..|pathname|] == pathname
      && r[|pathname| + sep..] == subpath
      && r[|pathname| + sep - 1] == '/'
  {
    var r := Joined(pathname, subpath);
    var sep := if pathname[|pathname| - 1] == '/' then 0 else 1;
    assert r == pathname + Separator(pathname) + subpath;
    assert r[..|pathname|] == pathname;
    assert r[|pathname| + sep..] == subpath;
  }

  /** Joining onto an absolute base gives an absolute path. */
  lemma {:induction false} JoinedKeepsAbsolute(pathname: string, subpath: string)
    requires IsAbs(pathname) || IsAbs(subpath)
    ensures IsAbs(Joined(pathname, subpath))
  {
  }

  /** `memcpy(dst + off, src, |src|)`. */
  method MemCopy(dst: array<char>, off: nat, src: seq<char>)
    requires off + |src| <= dst.Length
    modifies dst
    ensures dst[..] == old(dst[..off]) + src + old(dst[off + |src|..])
  {
    var i := 0;
    while i < |src|
      invariant 0 <= i <= |src|
      invariant dst[..off] == old(dst[..off])
      invariant dst[off..off + i] == src[..i]
      invariant dst[off + |src|..] == old(dst[off + |src|..])
    {
      dst[off + i] := src[i];
      i := i + 1;
      assert dst[off..off + i] == dst[off..off + i - 1] + [dst[off + i - 1]];
    }
    assert dst[..] == dst[..off] + dst[off..off + |src|] + dst[off + |src|..];
  }

  /** `strdup(s)`. */
  method StrDup(s: string, allocOk: bool) returns (res: Option<array<char>>)
    ensures res.None? <==> !allocOk
    ensures res.Some? ==> fresh(res.value) && res.value[..] == s + "\0"
  {
    if !allocOk {
      return None;
    }
    var a := new char[|s| + 1];
    MemCopy(a, 0, s + "\0");
    assert a[..] == s + "\0";
    return Some(a);
  }

  /**
   * `xcp_path_combine`: a new NUL-terminated buffer holding
   * `Joined(pathname, subpath)`, or NULL when the allocation fails.
   */
  method Combine(pathname: string, subpath: string, allocOk: bool) returns (res: Option<array<char>>)
    ensures res.None? <==> !allocOk
    ensures res.Some? ==> fresh(res.value) && res.value[..] == Joined(pathname, subpath) + "\0"
  {
    if pathname == [] || IsAbs(subpath) {
      res := StrDup(subpath, allocOk);
      return;
    }
    var pathnameLen := |pathname|;
    var subpathLen := |subpath|;
    var addSeparator: nat := if pathname[pathnameLen - 1] != '/' then 1 else 0;
    if !allocOk {
      return None;
    }
    var buf := new char[pathnameLen + subpathLen + 1 + addSeparator];
    MemCopy(buf, 0, pathname);
    if addSeparator == 1 {
      buf[pathnameLen] := '/';
    }
    ghost var mid := buf[..pathnameLen + addSeparator];
    assert mid == pathname + Separator(pathname);
    MemCopy(buf, pathnameLen + addSeparator, subpath + "\0");
    assert buf[..] == mid + (subpath + "\0");
    return Some(buf);
  }

  // ---------------------------------------------------------------------------
  // get_first_slash and xcp_path_parent_dir (src/path.c:55-120).

  /**
   * `get_first_slash(start, start + pos)`: the start of the maximal run of
   * slashes that ends just before `pos`.
   */
  method GetFirstSlash(s: string, pos: nat) returns (q: nat)
    requires pos <= |s|
    ensures q <= pos
    ensures AllSlashes(s[q..pos])
    ensures q == 0 || s[q - 1] != '/'
  {
    var p: int := pos - 1;
    while p >= 0
      invariant -1 <= p < pos
      invariant forall i :: p + 1 <= i < pos ==> s[i] == '/'
      decreases p
    {
      if s[p] != '/' {
        break;
      }
      p := p - 1;
    }
    q := p + 1;
    assert forall i :: 0 <= i < pos - q ==> s[q..pos][i] == s[q + i];
  }

  /** The run of `n >= 1` leading slashes that remains of a root directory. */
  function Root(n: nat): string {
    if n == 2 then "//" else "/"
  }

  /**
   * The parent directory of a path, as POSIX `dirname` describes it:
   * trailing slashes are ignored, the last component and the slashes before
   * it are removed, and a path with no slash has parent ".".  When only
   * leading slashes remain, exactly two of them are kept and any other
   * number becomes a single slash, following the rule that more than two
   * leading slashes are treated as one (section 4.11 "Pathname Resolution"
   * of POSIX.1 Base Definitions).  A NULL path has parent ".".
   */
  function ParentDirOf(pathname: Option<string>): string {
    if pathname.None? then "."
    else
      var s := pathname.value;
      if s != [] && AllSlashes(s) then Root(|s|)
      else
        var t := TrimTrailingSlashes(s);
        match LastSlash(t)
        case None => "."
        case Some(j) =>
          var u := TrimTrailingSlashes(t[..j]);
          if u == [] then Root(j + 1) else u
  }

  /**
   * The slash `xcp_path_parent_dir` works from: the last slash of the path
   * once a trailing run of slashes is ignored, or the last character of a
   * path made only of slashes.
   */
  function DirSlash(pathname: Option<string>): Option<nat> {
    if pathname.None? then None
    else
      var s := pathname.value;
      if s != [] && AllSlashes(s) then Some(|s| - 1)
      else LastSlash(TrimTrailingSlashes(s))
  }

  /**
   * Steps 1 and 2 of `xcp_path_parent_dir`: `strrchr`, then, when that slash
   * ends the path and is not its first character, `memrchr` before the
   * trailing run of slashes.
   */
  method FindDirSlash(pathname: Option<string>) returns (slash: Option<nat>)
    ensures slash == DirSlash(pathname)
    ensures slash.Some? ==> slash.value < |pathname.value| && pathname.value[slash.value] == '/'
  {
    var s := pathname.GetOr("");
    slash := if pathname.Some? then LastSlash(s) else None;
    if slash.Some? && slash.value != 0 && slash.value + 1 == |s| {
      var p := GetFirstSlash(s, slash.value);
      if p != 0 {
        slash := LastSlash(s[..p]);
        TrimTrailingSlashesUnique(s, p);
      } else {
        assert s == s[..slash.value] + [s[slash.value]];
      }
    } else if pathname.Some? && !(s != [] && AllSlashes(s)) {
      assert s == [] || s[|s| - 1] != '/' by {
        if slash.Some? && slash.value + 1 < |s| {
          assert s[slash.value + 1..][|s| - slash.value - 2] == s[|s| - 1];
        }
      }
      TrimTrailingSlashesUnique(s, |s|);
      assert s[..|s|] == s;
    }
  }

  /**
   * `xcp_path_parent_dir`, step by step: the slash found by `FindDirSlash`,
   * the run of slashes before it, the leading-slash rule and the final
   * `strndup`.  It computes `ParentDirOf`.
   */
  method ParentDir(pathname: Option<string>, allocOk: bool) returns (dir: Option<string>)
    ensures dir == if allocOk then Some(ParentDirOf(pathname)) else None
  {
    var slash := FindDirSlash(pathname);

    // 3. No slash.
    if slash.None? {
      ParentDirNoSlash(pathname);
      if !allocOk {
        return None;
      }
      return Some(".");
    }

    // 4. The run of slashes before `slash`, and the leading-slash rule.
    var s := pathname.value;
    var j := slash.value;
    var p := GetFirstSlash(s, j);
    var len: nat;
    if p == 0 {
      len := if j == 1 then 2 else 1;
      assert s[..len] == Root(j + 1) by {
        assert s[0] == '/' by {
          if j > 0 {
            assert s[p..j][0] == s[0];
          }
        }
      }
    } else {
      len := p;
    }
    ParentDirSlashCase(pathname, j, p);
    if !allocOk {
      return None;
    }
    dir := Some(s[..len]);
  }

  lemma {:induction false} ParentDirNoSlash(pathname: Option<string>)
    requires DirSlash(pathname).None?
    ensures ParentDirOf(pathname) == "."
  {
  }

  /** The last step of `ParentDir` agrees with `ParentDirOf`. */
  lemma {:induction false} ParentDirSlashCase(pathname: Option<string>, j: nat, p: nat)
    requires pathname.Some?
    requires var s := pathname.value;
      j < |s| && p <= j && AllSlashes(s[p..j]) && (p == 0 || s[p - 1] != '/')
    requires DirSlash(pathname) == Some(j)
    ensures var s := pathname.value;
      ParentDirOf(pathname) == if p == 0 then Root(j + 1) else s[..p]
  {
    var s := pathname.value;
    if !(s != [] && AllSlashes(s)) {
      var t := TrimTrailingSlashes(s);
      assert t[..j] == s[..j];
      TrimTrailingSlashesUnique(s[..j], p);
      assert s[..j][..p] == s[..p];
    }
  }

  /**
   * `ParentDirOf` in terms of three positions of the path: the end `k` of the
   * path without its trailing slashes, the last slash `j` before `k`, and the
   * start `p` of the run of slashes that ends at `j`.
   */
  lemma {:induction false} ParentDirOfByIndices(s: string, k: nat, j: nat, p: nat)
    requires 1 <= k <= |s| && s[k - 1] != '/' && forall i :: k <= i < |s| ==> s[i] == '/'
    requires j < k && s[j] == '/' && forall i :: j < i < k ==> s[i] != '/'
    requires p <= j && (p == 0 || s[p - 1] != '/') && forall i :: p <= i < j ==> s[i] == '/'
    ensures ParentDirOf(Some(s)) == if p == 0 then Root(j + 1) else s[..p]
  {
    SliceAllSlashes(s, k, |s|);
    TrimTrailingSlashesUnique(s, k);
    assert !AllSlashes(s);
    LastSlashUnique(s[..k], j);
    assert s[..k][..j] == s[..j];
    SliceAllSlashes(s[..j], p, j);
    TrimTrailingSlashesUnique(s[..j], p);
    assert s[..j][..p] == s[..p];
  }

  lemma {:induction false} SliceAllSlashes(s: string, a: nat, b: nat)
    requires a <= b <= |s| && forall i :: a <= i < b ==> s[i] == '/'
    ensures AllSlashes(s[a..b])
  {
    assert forall i :: 0 <= i < b - a ==> s[a..b][i] == s[a + i];
  }

  /** The last slash is the only slash with no slash after it. */
  lemma {:induction false} LastSlashUnique(t: string, j: nat)
    requires j < |t| && t[j] == '/' && forall i :: j < i < |t| ==> t[i] != '/'
    ensures LastSlash(t) == Some(j)
    decreases |t|
  {
    if j < |t| - 1 {
      var t' := t[..|t| - 1];
      LastSlashUnique(t', j);
    }
  }

  /** A NULL path, or one with no slash, has parent ".". */
  lemma {:induction false} ParentDirOfNoSlash(s: string)
    requires '/' !in s
    ensures ParentDirOf(None) == "."
    ensures ParentDirOf(Some(s)) == "."
  {
    assert s == [] || s[|s| - 1] != '/';
    TrimTrailingSlashesUnique(s, |s|);
    assert s[..|s|] == s;
  }

  /**
   * When a slash is left once trailing slashes are ignored, or the path is
   * made only of slashes, the parent is a non-empty prefix of the path;
   * otherwise it is ".".  (So "abc/" has parent ".", not a prefix.)
   */
  lemma {:induction false} ParentDirOfIsPrefix(s: string)
    ensures var r := ParentDirOf(Some(s));
      if (s != [] && AllSlashes(s)) || '/' in TrimTrailingSlashes(s) then r != [] && r <= s
      else r == "."
  {
    if s != [] && AllSlashes(s) {
      if |s| >= 2 {
        assert s[..2] == "//";
      }
      assert s[..1] == "/";
    } else {
      var t := TrimTrailingSlashes(s);
      match LastSlash(t)
      case None =>
      case Some(j) =>
        var u := TrimTrailingSlashes(t[..j]);
        assert t[..j] == s[..j];
        if u == [] {
          assert AllSlashes(s[..j]);
          assert s[j] == '/';
          if j >= 1 {
            assert s[..2] == "//" by {
              assert s[..j][0] == '/';
            }
          }
          assert s[..1] == "/" by {
            if j >= 1 {
              assert s[..j][0] == '/';
            }
          }
        }
    }
  }

  /** A run of `n` slashes. */
  function Slashes(n: nat): (r: string)
    ensures |r| == n && AllSlashes(r)
  {
    seq(n, _ => '/')
  }

  /**
   * When the only slashes left are the leading ones, the parent is the root:
   * two leading slashes are kept as "//", and one or more than two become
   * "/" (section 4.11 of POSIX.1 Base Definitions).
   */
  lemma {:induction false} ParentDirOfLeadingSlashes(n: nat, rest: string)
    requires n >= 1
    requires rest == [] || rest[0] != '/'
    requires '/' !in TrimTrailingSlashes(rest)
    ensures ParentDirOf(Some(Slashes(n) + rest)) == if n == 2 then "//" else "/"
  {
    var s := Slashes(n) + rest;
    if rest == [] {
      assert s == Slashes(n);
    } else {
      var k := |TrimTrailingSlashes(rest)|;
      assert rest[k..] == [] || rest[k..][0] == rest[k];
      assert k >= 1;
      forall i | n + k <= i < |s|
        ensures s[i] == '/'
      {
        assert s[i] == rest[i - n] == rest[k..][i - n - k];
      }
      forall i | n - 1 < i < n + k
        ensures s[i] != '/'
      {
        assert s[i] == rest[i - n] == TrimTrailingSlashes(rest)[i - n];
      }
      assert s[n + k - 1] == rest[k - 1] == TrimTrailingSlashes(rest)[k - 1];
      ParentDirOfByIndices(s, n + k, n - 1, 0);
    }
  }

  // One lemma per example of src/path.c:63-80 keeps each proof small.

  lemma {:induction false} ParentDirExample1()
    ensures ParentDirOf(Some("/")) == "/"
  {
  }

  lemma {:induction false} ParentDirExample2()
    ensures ParentDirOf(Some("/toto")) == "/"
  {
    ParentDirOfByIndices("/toto", 5, 0, 0);
  }

  lemma {:induction false} ParentDirExample3()
    ensures ParentDirOf(Some("titi/a")) == "titi"
  {
    ParentDirOfByIndices("titi/a", 6, 4, 4);
  }

  lemma {:induction false} ParentDirExample4()
    ensures ParentDirOf(Some("gfrg/grg/")) == "gfrg"
  {
    ParentDirOfByIndices("gfrg/grg/", 8, 4, 4);
  }

  lemma {:induction false} ParentDirExample5()
    ensures ParentDirOf(Some("/gfrg/grg/")) == "/gfrg"
  {
    ParentDirOfByIndices("/gfrg/grg/", 9, 5, 5);
  }

  lemma {:induction false} ParentDirExample6()
    ensures ParentDirOf(Some("////gfrg///grg///")) == "////gfrg"
  {
    ParentDirOfByIndices("////gfrg///grg///", 14, 10, 8);
  }

  lemma {:induction false} ParentDirExample7()
    ensures ParentDirOf(Some("///gfrg////grg")) == "///gfrg"
  {
    ParentDirOfByIndices("///gfrg////grg", 14, 10, 7);
  }

  lemma {:induction false} ParentDirExample8()
    ensures ParentDirOf(Some("/gfrg////grg")) == "/gfrg"
  {
    ParentDirOfByIndices("/gfrg////grg", 12, 8, 5);
  }

  lemma {:induction false} ParentDirExample9()
    ensures ParentDirOf(Some("titia")) == "."
  {
    ParentDirOfNoSlash("titia");
  }

  lemma {:induction false} ParentDirExample10()
    ensures ParentDirOf(Some("/toto/")) == "/"
  {
    ParentDirOfByIndices("/toto/", 5, 0, 0);
  }

  lemma {:induction false} ParentDirExample11()
    ensures ParentDirOf(Some("//")) == "//"
  {
  }

  lemma {:induction false} ParentDirExample12()
    ensures ParentDirOf(Some("///")) == "/"
  {
  }

  lemma {:induction false} ParentDirExample13()
    ensures ParentDirOf(Some("////")) == "/"
  {
  }

  lemma {:induction false} ParentDirExample14()
    ensures ParentDirOf(Some("//a")) == "//"
  {
    ParentDirOfByIndices("//a", 3, 1, 0);
  }

  lemma {:induction false} ParentDirExample15()
    ensures ParentDirOf(Some("///b")) == "/"
  {
    ParentDirOfByIndices("///b", 4, 2, 0);
  }

  lemma {:induction false} ParentDirExample16()
    ensures ParentDirOf(Some("////c")) == "/"
  {
    ParentDirOfByIndices("////c", 5, 3, 0);
  }

  lemma {:induction false} ParentDirExample17()
    ensures ParentDirOf(Some("////c/d")) == "////c"
  {
    ParentDirOfByIndices("////c/d", 7, 5, 5);
  }

  /** `xcp_path_parent_dir` reproduces every example of src/path.c:63-80. */
  lemma {:induction false} ParentDirOfExamples()
    ensures ParentDirOf(Some("/")) == "/"
    ensures ParentDirOf(Some("/toto")) == "/"
    ensures ParentDirOf(Some("titi/a")) == "titi"
    ensures ParentDirOf(Some("gfrg/grg/")) == "gfrg"
    ensures ParentDirOf(Some("/gfrg/grg/")) == "/gfrg"
    ensures ParentDirOf(Some("////gfrg///grg///")) == "////gfrg"
    ensures ParentDirOf(Some("///gfrg////grg")) == "///gfrg"
    ensures ParentDirOf(Some("/gfrg////grg")) == "/gfrg"
    ensures ParentDirOf(Some("titia")) == "."
    ensures ParentDirOf(Some("/toto/")) == "/"
    ensures ParentDirOf(Some("//")) == "//"
    ensures ParentDirOf(Some("///")) == "/"
    ensures ParentDirOf(Some("////")) == "/"
    ensures ParentDirOf(Some("//a")) == "//"
    ensures ParentDirOf(Some("///b")) == "/"
    ensures ParentDirOf(Some("////c")) == "/"
    ensures ParentDirOf(Some("////c/d")) == "////c"
  {
    ParentDirExample1();
    ParentDirExample2();
    ParentDirExample3();
    ParentDirExample4();
    ParentDirExample5();
    ParentDirExample6();
    ParentDirExample7();
    ParentDirExample8();
    ParentDirExample9();
    ParentDirExample10();
    ParentDirExample11();
    ParentDirExample12();
    ParentDirExample13();
    ParentDirExample14();
    ParentDirExample15();
    ParentDirExample16();
    ParentDirExample17();
  }
}
