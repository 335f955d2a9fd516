/**
 * `PathBuf::join` on string paths, as the IPC code uses it to place a socket
 * file in a directory: an absolute name replaces the base; otherwise the
 * name is appended after a separator, which is only added when the base is
 * non-empty and does not already end in one.
 */
module Paths {
  const SEPARATOR: char := '/'

  predicate IsAbsolute(p: string)
  {
    |p| > 0 && p[0] == SEPARATOR
  }

  function Join(base: string, name: string): (p: string)
    ensures IsAbsolute(name) ==> p == name
    ensures !IsAbsolute(name) ==> |p| >= |name| && p[|p| - |name|..] == name
    ensures !IsAbsolute(name) ==> var dir := p[..|p| - |name|];
      && (dir == base || dir == base + [SEPARATOR])
      && (dir == [] || dir[|dir| - 1] == SEPARATOR)
    ensures !IsAbsolute(name) && (base == [] || base[|base| - 1] == SEPARATOR) ==> p == base + name
    ensures !IsAbsolute(name) && base != [] && base[|base| - 1] != SEPARATOR ==> p == base + [SEPARATOR] + name
  {
    if IsAbsolute(name) then name
    else if base == [] || base[|base| - 1] == SEPARATOR then base + name
    else base + [SEPARATOR] + name
  }

  /** The last component of a path: everything after its last separator. */
  function FileName(p: string): (f: string)
    ensures SEPARATOR !in f
    ensures |f| <= |p| && f == p[|p| - |f|..]
    decreases |p|
  {
    if p == [] then []
    else if p[|p| - 1] == SEPARATOR then []
    else FileName(p[..|p| - 1]) + [p[|p| - 1]]
  }

  /** The part of a path before its last component. */
  function Parent(p: string): (d: string)
    ensures d + FileName(p) == p
  {
    p[..|p| - |FileName(p)|]
  }

  /**
   * A single-component name is the last component of the joined path, so
   * joining loses nothing; what precedes it is the base, ending in exactly
   * one separator unless it is empty.
   */
  lemma {:induction false} FileNameOfJoin(base: string, name: string)
    requires name != [] && SEPARATOR !in name
    ensures FileName(Join(base, name)) == name
    ensures Parent(Join(base, name)) == (if base == [] || base[|base| - 1] == SEPARATOR then base else base + [SEPARATOR])
  {
    var p := Join(base, name);
    var dir := p[..|p| - |name|];
    assert p == dir + name;
    FileNameSuffix(dir, name);
    assert Parent(p) == dir;
  }

  lemma FileNameAppend(p: string, c: char)
    requires c != SEPARATOR
    ensures FileName(p + [c]) == FileName(p) + [c]
  {
    assert (p + [c])[..|p|] == p;
  }

  /** Appending separator-free text extends the last component by exactly that text. */
  lemma {:induction false} FileNameSuffix(prefix: string, name: string)
    requires SEPARATOR !in name
    requires prefix == [] || prefix[|prefix| - 1] == SEPARATOR
    ensures FileName(prefix + name) == name
    decreases |name|
  {
    if name == [] {
      assert prefix + name == prefix;
    } else {
      var init, last := name[..|name| - 1], name[|name| - 1];
      assert name == init + [last];
      assert prefix + name == (prefix + init) + [last];
      FileNameSuffix(prefix, init);
      FileNameAppend(prefix + init, last);
    }
  }
}
