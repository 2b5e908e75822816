/** System.IO.Path.Combine with two arguments, as the .NET runtime defines it on Windows. */
module Paths {

  predicate IsDirectorySeparator(c: char) {
    c == '\\' || c == '/'
  }

  predicate IsAsciiLetter(c: char) {
    ('A' <= c <= 'Z') || ('a' <= c <= 'z')
  }

  /** Path.IsPathRooted: a leading separator, or a drive letter followed by ':'. */
  predicate IsPathRooted(p: string) {
    (|p| >= 1 && IsDirectorySeparator(p[0])) || (|p| >= 2 && IsAsciiLetter(p[0]) && p[1] == ':')
  }

  /** The text Combine places between a non-empty first part and a relative second part. */
  function Joiner(first: string): string
    requires first != []
  {
    if IsDirectorySeparator(first[|first| - 1]) then "" else "\\"
  }

  /**
    Path.Combine(first, second): an empty part yields the other one, a rooted
    second part replaces the first, and otherwise the parts are joined with a
    single '\' unless the first already ends with a separator.
  */
  function Combine(first: string, second: string): (r: string)
    ensures second == [] ==> r == first
    ensures first == [] ==> r == second
    ensures IsPathRooted(second) ==> r == second
    ensures first != [] && second != [] && !IsPathRooted(second) ==> r == first + Joiner(first) + second
  {
    if second == [] then first
    else if first == [] then second
    else if IsPathRooted(second) then second
    else first + Joiner(first) + second
  }

  /** Combining under a directory with a relative non-empty name ends in exactly that name and starts with the directory. */
  lemma CombineRelative(dir: string, name: string)
    requires dir != [] && name != [] && !IsPathRooted(name)
    ensures |Combine(dir, name)| > |dir|
    ensures Combine(dir, name)[..|dir|] == dir
    ensures Combine(dir, name)[|Combine(dir, name)| - |name|..] == name
    ensures Combine(dir, name)[|dir| + |Joiner(dir)|..] == name
  {
  }

  /**
    Within one directory, two non-empty names that are both rooted or both
    relative combine to the same path only if they are equal.
  */
  lemma CombineInjective(dir: string, n1: string, n2: string)
    requires n1 != [] && n2 != []
    requires IsPathRooted(n1) == IsPathRooted(n2)
    requires Combine(dir, n1) == Combine(dir, n2)
    ensures n1 == n2
  {
    if dir != [] && !IsPathRooted(n1) {
      CombineRelative(dir, n1);
      CombineRelative(dir, n2);
    }
  }

  /** Whether a name is rooted depends only on its first two characters. */
  lemma RootedByPrefix(p: string, q: string)
    requires |p| >= 2 && |q| >= 2 && p[..2] == q[..2]
    ensures IsPathRooted(p) == IsPathRooted(q)
  {
    assert p[0] == p[..2][0] && p[1] == p[..2][1];
    assert q[0] == q[..2][0] && q[1] == q[..2][1];
  }
}
