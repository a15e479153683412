/** The directory the listener writes to. A replacement of one file is atomic,
    so the directory is a map from names to contents. */
module ConfDir {
  import opened Text

  type Dir = map<string, string>

  predicate HasSuffix(s: string, suffix: string) {
    |suffix| <= |s| && s[|s| - |suffix|..] == suffix
  }

  predicate IsConfName(name: string) {
    HasSuffix(name, ".conf") && !HasPrefix(name, ".")
  }

  /** The files nginx loads from the directory. */
  function ConfFiles(dir: Dir): Dir {
    map name | name in dir && IsConfName(name) :: dir[name]
  }

  /** What the staging overlay starts from: every configuration file but one. */
  function CopyOf(dir: Dir, exclude: string): Dir { ConfFiles(dir) - {exclude} }

  /** The part of the copy made so far, when `names` are left. */
  function CopiedSoFar(src: Dir, exclude: string, names: set<string>): Dir { CopyOf(src, exclude) - names }

  lemma CopyMore(src: Dir, exclude: string, names: set<string>, name: string)
    requires name in names && name in src
    ensures CopiedSoFar(src, exclude, names - {name}) ==
      if IsConfName(name) && name != exclude then CopiedSoFar(src, exclude, names)[name := src[name]]
      else CopiedSoFar(src, exclude, names)
    ensures name in CopyOf(src, exclude) <==> IsConfName(name) && name != exclude
  {
  }

  /** What can fail in a copy: listing the source, reading a file, writing it into the overlay. */
  datatype CopyFaults = CopyFaults(unlisted: bool, unreadable: set<string>, unwritable: set<string>)

  predicate Copies(src: Dir, exclude: string, faults: CopyFaults) {
    && !faults.unlisted
    && CopyOf(src, exclude).Keys !! faults.unreadable && CopyOf(src, exclude).Keys !! faults.unwritable
  }

  /** Copy every configuration file but `exclude`. Whatever fails on one of them fails the copy. */
  method CopyConfTree(src: Dir, exclude: string, faults: CopyFaults) returns (dst: Option<Dir>)
    ensures dst == if Copies(src, exclude, faults) then Some(CopyOf(src, exclude)) else None
  {
    if faults.unlisted { return None; }
    var names := src.Keys;
    var copied: Dir := map[];
    while names != {}
      invariant names <= src.Keys
      invariant copied == CopiedSoFar(src, exclude, names) && copied.Keys !! faults.unreadable + faults.unwritable
      decreases names
    {
      var name :| name in names;
      CopyMore(src, exclude, names, name);
      names := names - {name};
      if !IsConfName(name) || name == exclude { continue; }
      if name in faults.unreadable { return None; }
      if name in faults.unwritable { return None; }
      copied := copied[name := src[name]];
    }
    assert copied == CopyOf(src, exclude);
    return Some(copied);
  }
}
