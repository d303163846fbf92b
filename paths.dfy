/**
 * The POSIX path operations the service uses: `os.path.join`, `os.path.dirname`,
 * `str.split('/')`, and the check werkzeug's `safe_join` applies before Flask serves
 * a file from a directory.
 */
module Paths {
  import opened Wrappers

  predicate IsAbsolute(p: string)
  {
    |p| > 0 && p[0] == '/'
  }

  /**
   * `os.path.join(a, b)`: an absolute `b` replaces `a`; otherwise `b` follows `a`, with a
   * separator added between them only when `a` is non-empty and does not already end in one.
   */
  function Join(a: string, b: string): (r: string)
    ensures IsAbsolute(b) ==> r == b
    ensures !IsAbsolute(b) ==> |r| >= |a| + |b| && r[..|a|] == a && r[|r| - |b|..] == b
    ensures !IsAbsolute(b) ==> |r| == |a| + |b| + (if a == "" || a[|a| - 1] == '/' then 0 else 1)
    ensures !IsAbsolute(b) && a != "" ==> r[|a| - 1] == '/' || (|r| > |a| && r[|a|] == '/')
  {
    if IsAbsolute(b) then b
    else if a == "" || a[|a| - 1] == '/' then a + b
    else a + "/" + b
  }

  /** `p.split('/')`: the separator-free pieces of `p`, empty ones included. */
  function Split(p: string): (parts: seq<string>)
    ensures |parts| >= 1
    ensures forall k | 0 <= k < |parts| :: '/' !in parts[k]
  {
    if p == [] then [""]
    else
      var rest := Split(p[1..]);
      if p[0] == '/' then [""] + rest else [[p[0]] + rest[0]] + rest[1..]
  }

  /** A component that names an entry inside a directory: not empty, not `.` or `..`, no separator. */
  predicate OrdinaryComponent(c: string)
  {
    c != "" && c != "." && c != ".." && '/' !in c
  }

  /**
   * The components `posixpath.normpath` keeps: ordinary ones, and `..` only in a run at
   * the start (a `..` that follows an ordinary component cancels it instead).
   */
  predicate Normalised(kept: seq<string>)
  {
    && (forall k | 0 <= k < |kept| :: kept[k] == ".." || OrdinaryComponent(kept[k]))
    && (forall i, k | 0 <= i < k < |kept| && kept[k] == ".." :: kept[i] == "..")
  }

  /**
   * `posixpath.normpath` on the components of a relative path, `kept` holding those
   * already kept: an empty or `.` component disappears; `..` removes the component before
   * it unless there is none or that one is `..` too.
   */
  function NormaliseComponents(parts: seq<string>, kept: seq<string>): (r: seq<string>)
    ensures Normalised(kept) && (forall k | 0 <= k < |parts| :: '/' !in parts[k]) ==> Normalised(r)
    decreases |parts|
  {
    if parts == [] then kept
    else
      var c := parts[0];
      if c == "" || c == "." then NormaliseComponents(parts[1..], kept)
      else if c != ".." || kept == [] || kept[|kept| - 1] == ".." then NormaliseComponents(parts[1..], kept + [c])
      else NormaliseComponents(parts[1..], kept[..|kept| - 1])
  }

  /** The components of `normpath(p)` for a relative `p`. */
  function NormalComponents(p: string): (parts: seq<string>)
    ensures Normalised(parts)
  {
    NormaliseComponents(Split(p), [])
  }

  /** `'/'.join(parts)` */
  function JoinComponents(parts: seq<string>): string
  {
    if parts == [] then ""
    else if |parts| == 1 then parts[0]
    else parts[0] + "/" + JoinComponents(parts[1..])
  }

  /** `posixpath.normpath(p)` for a relative `p`: `.` when no component remains. */
  function NormPath(p: string): string
  {
    if NormalComponents(p) == [] then "." else JoinComponents(NormalComponents(p))
  }

  /** True when `normpath(p)` is `..` or starts with `../`: `p` leads out of the directory it is joined to. */
  predicate Escapes(p: string)
  {
    NormalComponents(p) != [] && NormalComponents(p)[0] == ".."
  }

  /**
   * werkzeug's `safe_join(directory, name)`: a non-empty name is normalised first; the
   * result is refused (`None`) when the name is absolute or escapes `directory`, and is
   * otherwise `directory` joined with the normalised name.
   */
  function SafeJoin(directory: string, name: string): (r: Option<string>)
    ensures r.Some? <==> name == "" || (!IsAbsolute(name) && !Escapes(name))
    ensures r.Some? && name == "" ==> r.value == Join(directory, "")
    ensures r.Some? && name != "" ==> r.value == Join(directory, NormPath(name))
    ensures r.Some? ==> r.value == ResolvedJoin(directory, name)
  {
    if name == "" then Some(Join(directory, ""))
    else if IsAbsolute(name) || Escapes(name) then None
    else Some(Join(directory, NormPath(name)))
  }

  /**
   * The file `os.path.join(directory, name)` reaches: an empty or absolute name as joined;
   * a relative one with its empty, `.` and cancelled components resolved, so that every
   * spelling of one file inside `directory` reaches the same path.
   */
  function ResolvedJoin(directory: string, name: string): string
  {
    if name == "" || IsAbsolute(name) then Join(directory, name) else Join(directory, NormPath(name))
  }

  predicate NoNul(parts: seq<string>)
  {
    forall k | 0 <= k < |parts| :: '\0' !in parts[k]
  }

  /** Resolving keeps a path free of NUL characters. */
  lemma ResolvedJoinAvoidsNul(directory: string, name: string)
    requires '\0' !in directory && '\0' !in name
    ensures '\0' !in ResolvedJoin(directory, name)
  {
    if name != "" && !IsAbsolute(name) {
      SplitAvoidsNul(name);
      NormaliseAvoidsNul(Split(name), []);
      JoinComponentsAvoidsNul(NormalComponents(name));
    }
  }

  lemma {:induction false} SplitAvoidsNul(p: string)
    requires '\0' !in p
    ensures NoNul(Split(p))
  {
    if p != [] {
      assert '\0' !in p[1..] by {
        forall k | 0 <= k < |p[1..]| ensures p[1..][k] != '\0' { assert p[1..][k] == p[k + 1]; }
      }
      SplitAvoidsNul(p[1..]);
    }
  }

  lemma {:induction false} NormaliseAvoidsNul(parts: seq<string>, kept: seq<string>)
    requires NoNul(parts) && NoNul(kept)
    ensures NoNul(NormaliseComponents(parts, kept))
    decreases |parts|
  {
    if parts != [] {
      var c := parts[0];
      assert NoNul(parts[1..]);
      if c == "" || c == "." {
        NormaliseAvoidsNul(parts[1..], kept);
      } else if c != ".." || kept == [] || kept[|kept| - 1] == ".." {
        NormaliseAvoidsNul(parts[1..], kept + [c]);
      } else {
        NormaliseAvoidsNul(parts[1..], kept[..|kept| - 1]);
      }
    }
  }

  lemma {:induction false} JoinComponentsAvoidsNul(parts: seq<string>)
    requires NoNul(parts)
    ensures '\0' !in JoinComponents(parts)
  {
    if |parts| > 1 {
      JoinComponentsAvoidsNul(parts[1..]);
    }
  }

  /** A plain name is already normal: `normpath` gives it back unchanged. */
  lemma PlainNameIsNormal(name: string)
    requires PlainName(name)
    ensures NormPath(name) == name
  {
    SplitWithoutSeparator(name);
    assert NormaliseComponents([name], []) == NormaliseComponents([], [name]);
  }

  /**
   * A name `safe_join` accepts leads nowhere above the directory: every component left
   * after normalising it is an ordinary one.
   */
  lemma AcceptedNameStaysInside(directory: string, name: string)
    requires SafeJoin(directory, name).Some?
    ensures forall k | 0 <= k < |NormalComponents(name)| :: OrdinaryComponent(NormalComponents(name)[k])
  {
    var n := NormalComponents(name);
    if n != [] && name != "" {
      assert n[0] != "..";
    }
  }

  /** Splitting at a first separator: the component before it, then the pieces of the rest. */
  lemma {:induction false} SplitAtSeparator(head: string, rest: string)
    requires '/' !in head
    ensures Split(head + "/" + rest) == [head] + Split(rest)
  {
    if head == [] {
      assert head + "/" + rest == "/" + rest;
      assert ("/" + rest)[1..] == rest;
    } else {
      SplitAtSeparator(head[1..], rest);
      assert (head + "/" + rest)[1..] == head[1..] + "/" + rest;
      assert [head[0]] + head[1..] == head;
    }
  }

  /** `normpath` drops a `.` component: `./x` is served as `x`. */
  lemma DotComponentVanishes()
    ensures NormPath("./x") == "x"
  {
    SplitWithoutSeparator("x");
    assert "./x" == "." + "/" + "x";
    SplitAtSeparator(".", "x");
    var parts := [".", "x"];
    assert parts[1..] == ["x"];
    assert NormaliseComponents(parts, []) == NormaliseComponents(["x"], []);
    assert NormaliseComponents(["x"], []) == NormaliseComponents([], ["x"]);
  }

  /** `normpath` cancels `a/..`: `a/../b` is served as `b`, and does not escape. */
  lemma ParentCancelsComponent()
    ensures NormPath("a/../b") == "b" && !Escapes("a/../b")
  {
    SplitOfParentStep();
    var parts := ["a", "..", "b"];
    assert parts[1..] == ["..", "b"];
    assert NormaliseComponents(parts, []) == NormaliseComponents(["..", "b"], ["a"]);
    assert ["..", "b"][1..] == ["b"] && ["a"][..0] == [];
    assert NormaliseComponents(["..", "b"], ["a"]) == NormaliseComponents(["b"], []);
    assert NormaliseComponents(["b"], []) == NormaliseComponents([], ["b"]);
  }

  lemma SplitOfParentStep()
    ensures Split("a/../b") == ["a", "..", "b"]
  {
    SplitWithoutSeparator("b");
    assert "../b" == ".." + "/" + "b";
    SplitAtSeparator("..", "b");
    assert "a/../b" == "a" + "/" + "../b";
    SplitAtSeparator("a", "../b");
  }

  /** A `..` with nothing before it to cancel stays, so the name escapes: `../x`. */
  lemma LeadingParentEscapes()
    ensures Escapes("../x")
  {
    SplitWithoutSeparator("x");
    assert "../x" == ".." + "/" + "x";
    SplitAtSeparator("..", "x");
    var parts := ["..", "x"];
    assert parts[1..] == ["x"];
    assert NormaliseComponents(parts, []) == NormaliseComponents(["x"], [".."]);
    assert NormaliseComponents(["x"], [".."]) == NormaliseComponents([], ["..", "x"]);
  }

  /** The last component of `p`: what follows its last separator. */
  function LastComponent(p: string): (last: string)
    ensures '/' !in last
  {
    var parts := Split(p);
    parts[|parts| - 1]
  }

  /** True when `p` cannot name a regular file: it is empty, or it ends in a separator, `.` or `..`. */
  predicate NamesDirectory(p: string)
  {
    LastComponent(p) in {"", ".", ".."}
  }

  /** A single path component such as `werkzeug.utils.secure_filename` produces: ordinary and without a NUL character. */
  predicate PlainName(name: string)
  {
    OrdinaryComponent(name) && '\0' !in name
  }

  lemma {:induction false} SplitWithoutSeparator(p: string)
    requires '/' !in p
    ensures Split(p) == [p]
  {
    if p != [] {
      SplitWithoutSeparator(p[1..]);
      assert [p[0]] + p[1..] == p;
    }
  }

  /** `safe_join` accepts every plain name, and then agrees with `os.path.join`. */
  lemma PlainNameIsSafe(directory: string, name: string)
    requires PlainName(name)
    ensures SafeJoin(directory, name) == Some(Join(directory, name))
  {
    PlainNameIsNormal(name);
  }

  /** The last component of a path joined with a plain name is that name. */
  lemma LastComponentOfJoin(directory: string, name: string)
    requires PlainName(name)
    ensures LastComponent(Join(directory, name)) == name
    ensures !NamesDirectory(Join(directory, name))
  {
    SplitWithoutSeparator(name);
    if directory == "" {
      assert Join(directory, name) == name;
    } else if directory[|directory| - 1] == '/' {
      SplitAfterSeparator(directory, name);
    } else {
      assert Join(directory, name) == (directory + "/") + name;
      SplitAfterSeparator(directory + "/", name);
    }
  }

  lemma {:induction false} SplitAfterSeparator(prefix: string, tail: string)
    requires prefix != [] && prefix[|prefix| - 1] == '/'
    requires '/' !in tail
    ensures |Split(prefix + tail)| >= 2
    ensures Split(prefix + tail)[|Split(prefix + tail)| - 1] == tail
  {
    var p := prefix + tail;
    assert p[1..] == prefix[1..] + tail;
    if |prefix| == 1 {
      SplitWithoutSeparator(tail);
      assert p[0] == '/';
    } else {
      SplitAfterSeparator(prefix[1..], tail);
    }
  }

  /** `p.rfind('/') + 1`: the length of the part of `p` up to and including its last separator. */
  function LastSeparatorEnd(p: string): (i: nat)
    ensures i <= |p|
    ensures i > 0 ==> p[i - 1] == '/'
    ensures forall k | i <= k < |p| :: p[k] != '/'
  {
    if p == [] then 0
    else if p[|p| - 1] == '/' then |p|
    else LastSeparatorEnd(p[..|p| - 1])
  }

  predicate AllSeparators(s: string)
  {
    forall k | 0 <= k < |s| :: s[k] == '/'
  }

  /** `s.rstrip('/')` */
  function StripTrailingSeparators(s: string): (r: string)
    ensures r <= s
    ensures r == [] || r[|r| - 1] != '/'
    ensures AllSeparators(s[|r|..])
  {
    if s != [] && s[|s| - 1] == '/' then StripTrailingSeparators(s[..|s| - 1]) else s
  }

  /** `os.path.dirname(p)`: everything before the last separator, trailing separators removed unless only separators remain. */
  function Dirname(p: string): (r: string)
    ensures r <= p
  {
    var head := p[..LastSeparatorEnd(p)];
    if head != [] && !AllSeparators(head) then StripTrailingSeparators(head) else head
  }

  /** `dirname` undoes `join` for a directory without a trailing separator and a plain name. */
  lemma DirnameOfJoin(directory: string, name: string)
    requires directory != "" && directory[|directory| - 1] != '/'
    requires PlainName(name)
    ensures Dirname(Join(directory, name)) == directory
  {
    var p := Join(directory, name);
    assert p == directory + "/" + name;
    LastSeparatorAt(directory + "/", name);
    assert p[..|directory| + 1] == directory + "/";
    assert !AllSeparators(directory + "/") by {
      assert (directory + "/")[|directory| - 1] != '/';
    }
    assert (directory + "/")[..|directory|] == directory;
  }

  lemma {:induction false} LastSeparatorAt(prefix: string, tail: string)
    requires prefix != [] && prefix[|prefix| - 1] == '/'
    requires '/' !in tail
    ensures LastSeparatorEnd(prefix + tail) == |prefix|
  {
    if tail != [] {
      var t := tail[..|tail| - 1];
      assert (prefix + tail)[..|prefix + tail| - 1] == prefix + t;
      assert (prefix + tail)[|prefix + tail| - 1] == tail[|tail| - 1];
      assert '/' !in t by {
        forall k | 0 <= k < |t| ensures t[k] != '/' { assert t[k] == tail[k]; }
      }
      LastSeparatorAt(prefix, t);
    } else {
      assert prefix + tail == prefix;
    }
  }
}
