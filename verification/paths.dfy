/**
 * The upward search for `.tsweb_py.local` (`find_config` in
 * config/local_config.py and, identically, tsweb_py/config/local_config.py),
 * over an abstract file system.
 */
module Paths {
  import opened Wrappers
  import opened Json

  /** An absolute path as its components below the root; `[]` is the root. */
  type Path = seq<string>

  /** The files that exist, with what reading each one yields. */
  type FileSystem = map<Path, FileBody>

  const ConfigFileName := ".tsweb_py.local"

  /** `path.parent`; the root is its own parent. */
  function Parent(p: Path): (r: Path)
    ensures p == [] ==> r == p
    ensures p != [] ==> r == p[..|p| - 1]
  {
    if |p| == 0 then p else p[..|p| - 1]
  }

  /** `directory / ".tsweb_py.local"`. */
  function ConfigIn(directory: Path): Path {
    directory + [ConfigFileName]
  }

  /**
   * The config file of the closest directory, from `cwd` up to the root,
   * that has one.
   */
  function ClosestConfig(cwd: Path, present: set<Path>): (found: Option<Path>)
    ensures found.Some? ==> found.value in present
    decreases |cwd|
  {
    if ConfigIn(cwd) in present then Some(ConfigIn(cwd))
    else if |cwd| == 0 then None
    else ClosestConfig(cwd[..|cwd| - 1], present)
  }

  /**
   * The file found is the config file of the directory `n` levels below the
   * root, `n` read off its length, and no directory below that one has one.
   */
  lemma {:induction false} ClosestConfigFound(cwd: Path, present: set<Path>)
    requires ClosestConfig(cwd, present).Some?
    ensures var found := ClosestConfig(cwd, present).value;
            var n := |found| - 1;
            0 <= n <= |cwd| && found == ConfigIn(cwd[..n]) && found in present
            && forall m :: n < m <= |cwd| ==> ConfigIn(cwd[..m]) !in present
    decreases |cwd|
  {
    var found := ClosestConfig(cwd, present).value;
    if ConfigIn(cwd) in present {
      assert cwd[..|cwd|] == cwd;
    } else {
      var parent := cwd[..|cwd| - 1];
      ClosestConfigFound(parent, present);
      var n := |found| - 1;
      assert parent[..n] == cwd[..n];
      forall m | n < m <= |cwd|
        ensures ConfigIn(cwd[..m]) !in present
      {
        if m < |cwd| {
          assert parent[..m] == cwd[..m];
        } else {
          assert cwd[..m] == cwd;
        }
      }
    }
  }

  /** Nothing is found only when no directory from `cwd` up to the root has a config file. */
  lemma {:induction false} ClosestConfigAbsent(cwd: Path, present: set<Path>)
    requires ClosestConfig(cwd, present).None?
    ensures forall m :: 0 <= m <= |cwd| ==> ConfigIn(cwd[..m]) !in present
    decreases |cwd|
  {
    if |cwd| > 0 {
      var parent := cwd[..|cwd| - 1];
      ClosestConfigAbsent(parent, present);
      forall m | 0 <= m <= |cwd|
        ensures ConfigIn(cwd[..m]) !in present
      {
        if m < |cwd| {
          assert parent[..m] == cwd[..m];
        } else {
          assert cwd[..m] == cwd;
        }
      }
    } else {
      assert cwd[..0] == cwd;
    }
  }

  /** `find_config`: the `while True` walk from the working directory up to the root. */
  method FindConfig(cwd: Path, present: set<Path>) returns (found: Option<Path>)
    ensures found == ClosestConfig(cwd, present)
  {
    var current := cwd;
    while true
      invariant |current| <= |cwd| && current == cwd[..|current|]
      invariant ClosestConfig(current, present) == ClosestConfig(cwd, present)
      decreases |current|
    {
      var configPath := ConfigIn(current);
      if configPath in present {
        return Some(configPath);
      }
      if current == Parent(current) {
        return None;
      }
      current := Parent(current);
    }
  }

  /** What `load()` reads when given no path: the closest config file's body, if any. */
  function FoundBody(fs: FileSystem, cwd: Path): Option<FileBody> {
    match ClosestConfig(cwd, fs.Keys)
    case None => None
    case Some(p) => Some(fs[p])
  }

  /** Where `save()` writes when given no path: the working directory, not the file `load()` found. */
  function SavePath(cwd: Path): Path {
    ConfigIn(cwd)
  }

  /** A config file in a directory hides every config file further up. */
  lemma {:induction false} ClosestWins(cwd: Path, present: set<Path>, n: nat)
    requires n <= |cwd| && ConfigIn(cwd[..n]) in present
    ensures ClosestConfig(cwd, present).Some?
    ensures |ClosestConfig(cwd, present).value| >= n + 1
  {
    if ClosestConfig(cwd, present).None? {
      ClosestConfigAbsent(cwd, present);
    }
    ClosestConfigFound(cwd, present);
  }

  /**
   * When the file found lies in a strict ancestor of the working directory,
   * saving creates a second file instead of updating it.
   */
  lemma {:induction false} SaveMissesAncestorConfig(fs: FileSystem, cwd: Path)
    requires ClosestConfig(cwd, fs.Keys).Some? && ClosestConfig(cwd, fs.Keys).value != ConfigIn(cwd)
    ensures SavePath(cwd) !in fs
  {
    ClosestConfigFound(cwd, fs.Keys);
  }

  /** `name.rfind(c)`: the last position of `c`, if any. */
  function LastIndexOf(name: string, c: char): (i: Option<nat>)
    ensures i.Some? ==> i.value < |name|
  {
    if |name| == 0 then None
    else if name[|name| - 1] == c then Some(|name| - 1)
    else LastIndexOf(name[..|name| - 1], c)
  }

  /** `rfind` finds the last occurrence, and finds none only when there is none. */
  lemma {:induction false} LastIndexOfMeaning(name: string, c: char)
    ensures LastIndexOf(name, c).None? <==> c !in name
    ensures LastIndexOf(name, c).Some? ==>
              var i := LastIndexOf(name, c).value;
              name[i] == c && c !in name[i + 1..]
  {
    if |name| > 0 && name[|name| - 1] != c {
      var init := name[..|name| - 1];
      LastIndexOfMeaning(init, c);
      var i := LastIndexOf(init, c);
      assert i.Some? ==> name[i.value + 1..] == init[i.value + 1..] + [name[|name| - 1]];
      assert c !in init ==> c !in name by {
        assert name == init + [name[|name| - 1]];
      }
    }
  }

  /**
   * `PurePath(name).stem`: the file name without its suffix; the suffix starts
   * at the last dot, unless that dot is the first or the last character.
   */
  function Stem(name: string): string {
    match LastIndexOf(name, '.')
    case Some(i) => if 0 < i < |name| - 1 then name[..i] else name
    case None => name
  }

  /**
   * The stem is the whole name, or the part before a dot that is neither the
   * first nor the last character and after which no dot follows; it is the
   * whole name exactly when there is no such dot.
   */
  lemma {:induction false} StemMeaning(name: string)
    ensures var stem := Stem(name);
            stem == name || (0 < |stem| < |name| - 1 && stem == name[..|stem|] && name[|stem|] == '.'
                             && '.' !in name[|stem| + 1..])
    ensures Stem(name) == name <==> match LastIndexOf(name, '.')
                                    case None => true
                                    case Some(i) => i == 0 || i == |name| - 1
  {
    LastIndexOfMeaning(name, '.');
  }

  /** `PurePath(name).suffix`: what the stem leaves out. */
  function Suffix(name: string): string {
    match LastIndexOf(name, '.')
    case Some(i) => if 0 < i < |name| - 1 then name[i..] else ""
    case None => ""
  }

  /** The stem and the suffix make up the name again. */
  lemma {:induction false} StemSuffix(name: string)
    ensures Stem(name) + Suffix(name) == name
  {
    match LastIndexOf(name, '.')
    case Some(i) =>
      if 0 < i < |name| - 1 {
        assert name[..i] + name[i..] == name;
      }
    case None =>
  }
}
