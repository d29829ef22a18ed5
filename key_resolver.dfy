/**
 * Key validation and key-to-path resolution of the store: the character whitelist,
 * the extraction of the key from the request's path info, and the confinement of the
 * resolved file to the store directory.
 *
 * Paths are strings in the form java.io.File prints them. Canonicalisation is modelled
 * lexically (no symbolic links) for the keys the handlers can pass, which never hold a
 * separator.
 */
module KeyResolver {
  import opened Common

  const Separator: char := '/'

  /** One character of the class [A-Za-z0-9._-]. */
  predicate IsSafeChar(c: char) {
    ('A' <= c <= 'Z') || ('a' <= c <= 'z') || ('0' <= c <= '9') || c == '.' || c == '_' || c == '-'
  }

  /** Every character is whitelisted; the empty string qualifies vacuously. */
  predicate IsSafeURLString(s: string) {
    forall i | 0 <= i < |s| :: IsSafeChar(s[i])
  }

  /** The whitelist loop: scans left to right and stops at the first character outside the class. */
  method CheckSafeURLString(s: string) returns (ok: bool)
    ensures ok <==> IsSafeURLString(s)
    ensures !ok ==> exists i | 0 <= i < |s| :: !IsSafeChar(s[i])
  {
    var i := 0;
    while i < |s|
      invariant 0 <= i <= |s|
      invariant forall j | 0 <= j < i :: IsSafeChar(s[j])
    {
      var c := s[i];
      if 'A' <= c <= 'Z' {
        i := i + 1;
        continue;
      }
      if 'a' <= c <= 'z' {
        i := i + 1;
        continue;
      }
      if '0' <= c <= '9' {
        i := i + 1;
        continue;
      }
      if c == '.' || c == '_' || c == '-' {
        i := i + 1;
        continue;
      }
      return false;
    }
    return true;
  }

  /** A whitelisted string holds no path separator, so it names at most one level below a directory. */
  lemma SafeHasNoSeparator(s: string)
    requires IsSafeURLString(s)
    ensures Separator !in s
  {
  }

  /**
   * The key of a request: None (Java's null) for a missing or empty path info, otherwise the
   * path info with one leading separator removed, provided what is left passes the whitelist.
   */
  function GetPathInfoKey(pathInfo: Option<string>): (key: Option<string>)
    ensures pathInfo.None? || pathInfo.value == [] ==> key.None?
    ensures key.Some? ==> IsSafeURLString(key.value) && Separator !in key.value
    ensures key.Some? ==> pathInfo.Some? && (pathInfo.value == key.value || pathInfo.value == [Separator] + key.value)
  {
    match pathInfo
    case None => None
    case Some(p) =>
      if p == [] then None
      else
        var rest := if p[0] == Separator then p[1..] else p;
        if IsSafeURLString(rest) then
          SafeHasNoSeparator(rest);
          assert p[0] == Separator ==> p == [Separator] + rest;
          Some(rest)
        else None
  }

  /** Every whitelisted key is reachable: after one leading separator, and bare when it is not empty. */
  lemma GetPathInfoKeyAccepts(k: string)
    requires IsSafeURLString(k)
    ensures GetPathInfoKey(Some([Separator] + k)) == Some(k)
    ensures k != [] ==> GetPathInfoKey(Some(k)) == Some(k)
  {
    assert ([Separator] + k)[1..] == k;
    if k != [] {
      assert IsSafeChar(k[0]);
    }
  }

  /** Only one leading separator is stripped: a second one makes the key null. */
  lemma {:induction false} DoubleSeparatorRejected(p: string)
    requires |p| >= 2 && p[0] == Separator && p[1] == Separator
    ensures GetPathInfoKey(Some(p)).None?
  {
    assert p[1..][0] == Separator;
    assert !IsSafeChar(p[1..][0]);
  }

  /** The store directory as File.getCanonicalFile() gives it: absolute, no trailing separator unless it is "/". */
  predicate IsCanonicalRoot(root: string) {
    |root| > 0 && root[0] == Separator && (root == [Separator] || root[|root| - 1] != Separator)
  }

  /** Position of the last separator of a path. */
  function LastSeparator(s: string): (i: nat)
    requires Separator in s
    ensures i < |s| && s[i] == Separator
    ensures forall j | i < j < |s| :: s[j] != Separator
    decreases |s|
  {
    if s[|s| - 1] == Separator then |s| - 1
    else
      assert Separator in s[..|s| - 1] by {
        var k :| 0 <= k < |s| && s[k] == Separator;
        assert s[..|s| - 1][k] == Separator;
      }
      LastSeparator(s[..|s| - 1])
  }

  /** Canonical form of root + "/..": the directory above root; "/" is its own parent. */
  function Parent(root: string): (p: string)
    requires IsCanonicalRoot(root)
    ensures StartsWith(root, p)
    ensures root == [Separator] ==> p == root
    ensures root != [Separator] ==> |p| < |root|
  {
    var i := LastSeparator(root);
    if i == 0 then [Separator] else root[..i]
  }

  /** Canonical form of new File(root, key) for a key without separators (symbolic links are not followed). */
  function Canonical(root: string, key: string): (c: string)
    requires IsCanonicalRoot(root) && Separator !in key
    ensures key == "" || key == "." ==> c == root
    ensures key == ".." ==> StartsWith(root, c) && (root != [Separator] ==> |c| < |root|)
    ensures key != "" && key != "." && key != ".." ==> StartsWith(c, root) && EndsWith(c, [Separator] + key) && |c| > |root|
  {
    if key == "" || key == "." then root
    else if key == ".." then Parent(root)
    else if root == [Separator] then [Separator] + key
    else root + [Separator] + key
  }

  /** A path strictly below root: it extends root + "/" by at least one character. */
  predicate Inside(root: string, path: string) {
    StartsWith(path, root + [Separator]) && |path| > |root| + 1
  }

  /**
   * fileForKey: the canonical file for a key, or None where the source throws
   * FileNotFoundException("Invalid path") because the canonical path does not start with
   * the store directory followed by a separator.
   */
  function FileForKey(root: string, key: string): (r: Option<string>)
    requires IsCanonicalRoot(root) && Separator !in key
    ensures r.Some? <==> root != [Separator] && key != "" && key != "." && key != ".."
    ensures r.Some? ==> r.value == root + [Separator] + key && Inside(root, r.value)
  {
    var f := Canonical(root, key);
    CanonicalContainment(root, key);
    if StartsWith(f, root + [Separator]) then Some(f) else None
  }

  /** When the canonical path passes the prefix test: exactly for a proper name under a store directory other than "/". */
  lemma CanonicalContainment(root: string, key: string)
    requires IsCanonicalRoot(root) && Separator !in key
    ensures StartsWith(Canonical(root, key), root + [Separator]) <==> root != [Separator] && key != "" && key != "." && key != ".."
  {
    var f := Canonical(root, key);
    var prefix := root + [Separator];
    if key != "" && key != "." && key != ".." {
      if root == [Separator] {
        assert f[1] == key[0];
        assert key[0] != Separator;
      } else {
        assert f[..|prefix|] == prefix;
      }
    }
  }

  /** The key can be read back from its file: the name after the store directory and the separator. */
  lemma FileForKeyInverse(root: string, key: string)
    requires IsCanonicalRoot(root) && Separator !in key
    requires FileForKey(root, key).Some?
    ensures FileForKey(root, key).value[|root| + 1..] == key
  {
    assert (root + [Separator] + key)[|root| + 1..] == key;
  }

  /** Distinct keys never share a file. */
  lemma {:induction false} FileForKeyInjective(root: string, k1: string, k2: string)
    requires IsCanonicalRoot(root) && Separator !in k1 && Separator !in k2
    requires FileForKey(root, k1).Some? && FileForKey(root, k1) == FileForKey(root, k2)
    ensures k1 == k2
  {
    FileForKeyInverse(root, k1);
    FileForKeyInverse(root, k2);
  }

  /** The keys the whitelist lets through but the containment check stops resolve to root or its parent. */
  lemma DotKeysEscape(root: string)
    requires IsCanonicalRoot(root)
    ensures IsSafeURLString("") && IsSafeURLString(".") && IsSafeURLString("..")
    ensures Canonical(root, "") == root && Canonical(root, ".") == root && Canonical(root, "..") == Parent(root)
    ensures FileForKey(root, "").None? && FileForKey(root, ".").None? && FileForKey(root, "..").None?
  {
  }
}
