/** The `nginx -T` dump: one marker line per loaded file, then the file. */
module Dump {
  import opened Text
  import opened Manifest
  import opened Sections

  datatype FileBlock = FileBlock(file: string, managed: bool, app: string, serverNames: seq<string>)

  const MARKER_START := "# configuration file "

  /** `^# configuration file (.+):$` */
  function Marker(trimmed: string): Option<string> {
    var rest :- After(trimmed, MARKER_START);
    if |rest| < 2 || rest[|rest| - 1] != ':' then None else Some(rest[..|rest| - 1])
  }

  function MarkerOf(line: string): Option<string> { Marker(TrimSpace(line)) }

  predicate IsBlankLine(line: string) { TrimSpace(line) == "" }

  // ---- what one file says about itself ----

  /** The application named by the managed-by header, if the first line that is not blank is one. */
  function HeaderApp(lines: seq<string>): Option<string> {
    match FirstNot(lines, IsBlankLine)
    case None => None
    case Some(line) => ManagedApp(TrimSpace(line))
  }

  function NamesIn(lines: seq<string>): seq<string> { FlatMap(lines, LineDomains) }

  function BlockOf(s: Section<string>): FileBlock {
    var app := HeaderApp(s.body);
    FileBlock(s.name, app != None, if app == None then "" else app.value, NamesIn(s.body))
  }

  function BlocksOf(sections: seq<Section<string>>): seq<FileBlock> { Map(sections, BlockOf) }

  /** A dump, taken apart: one block per marker. */
  function Blocks(dump: string): seq<FileBlock> { BlocksOf(Cut(Lines(dump), MarkerOf)) }

  // ---- the scanner ----

  predicate AllBlank(lines: seq<string>) { FirstNot(lines, IsBlankLine) == None }

  /** One more line of the block being read. */
  method ReadLine(current: FileBlock, atFileStart: bool, line: string, ghost s: Section<string>)
    returns (more: FileBlock, still: bool)
    requires current == BlockOf(s) && atFileStart == AllBlank(s.body)
    ensures more == BlockOf(s.(body := s.body + [line])) && still == AllBlank(s.body + [line])
  {
    FirstNotGrow(s.body, line, IsBlankLine);
    FlatMapGrow(s.body, line, LineDomains);
    more, still := current, atFileStart;
    var trimmed := TrimSpace(line);
    if still && trimmed != "" {
      var app := ManagedApp(trimmed);
      if app != None {
        more := more.(managed := true, app := app.value);
      }
      still := false;
    }
    more := more.(serverNames := more.serverNames + LineDomains(line));
  }

  /** What the scanner holds after some lines: finished blocks, and the one being read. */
  ghost predicate Scanned(sections: seq<Section<string>>, blocks: seq<FileBlock>, current: Option<FileBlock>,
                          atFileStart: bool)
  {
    if sections == [] then blocks == [] && current == None
    else
      var last := |sections| - 1;
      && blocks == BlocksOf(sections[..last])
      && current == Some(BlockOf(sections[last]))
      && atFileStart == AllBlank(sections[last].body)
  }

  lemma ScannedAll(sections: seq<Section<string>>, blocks: seq<FileBlock>, current: Option<FileBlock>,
                   atFileStart: bool)
    requires Scanned(sections, blocks, current, atFileStart)
    ensures BlocksOf(sections) == if current == None then blocks else blocks + [current.value]
  {
    if sections != [] {
      var last := |sections| - 1;
      assert sections == sections[..last] + [sections[last]];
      MapGrow(sections[..last], sections[last], BlockOf);
    }
  }

  lemma Opened(sections: seq<Section<string>>, name: string, blocks: seq<FileBlock>)
    requires blocks == BlocksOf(sections)
    ensures Scanned(sections + [Section(name, [])], blocks, Some(FileBlock(name, false, "", [])), true)
  {
    assert (sections + [Section(name, [])])[..|sections|] == sections;
  }

  lemma Grown(sections: seq<Section<string>>, line: string, blocks: seq<FileBlock>, more: FileBlock, still: bool)
    requires sections != [] && blocks == BlocksOf(sections[..|sections| - 1])
    requires var last := sections[|sections| - 1];
      more == BlockOf(last.(body := last.body + [line])) && still == AllBlank(last.body + [line])
    ensures Scanned(Grow(sections, line), blocks, Some(more), still)
  {
    assert Grow(sections, line)[..|sections| - 1] == sections[..|sections| - 1];
  }

  /** `ParseDump`: split the dump into per-file blocks. */
  method ParseDump(dump: string) returns (blocks: seq<FileBlock>)
    ensures blocks == Blocks(dump)
  {
    var lines := Lines(dump);
    blocks := [];
    var current: Option<FileBlock> := None;
    var atFileStart := false;
    for i := 0 to |lines|
      invariant Scanned(Cut(lines[..i], MarkerOf), blocks, current, atFileStart)
    {
      SectionsGrow(lines, i, MarkerOf);
      ghost var sections := Cut(lines[..i], MarkerOf);
      var marker := MarkerOf(lines[i]);
      if marker != None {
        ScannedAll(sections, blocks, current, atFileStart);
        if current != None {
          blocks := blocks + [current.value];
        }
        Opened(sections, marker.value, blocks);
        current, atFileStart := Some(FileBlock(marker.value, false, "", [])), true;
      } else if current != None {
        var more, still := ReadLine(current.value, atFileStart, lines[i], sections[|sections| - 1]);
        Grown(sections, lines[i], blocks, more, still);
        current, atFileStart := Some(more), still;
      }
    }
    assert lines[..|lines|] == lines;
    ScannedAll(Cut(lines, MarkerOf), blocks, current, atFileStart);
    if current != None {
      blocks := blocks + [current.value];
    }
  }

  // ---- who declares a domain ----

  /** Some name of the list is the domain, in any case. */
  predicate Among(names: seq<string>, domain: string) {
    exists i :: 0 <= i < |names| && EqualFold(names[i], domain)
  }

  /** The first block that declares the domain. */
  function Owner(blocks: seq<FileBlock>, domain: string): Option<FileBlock> {
    if blocks == [] then None
    else if Among(blocks[0].serverNames, domain) then Some(blocks[0])
    else Owner(blocks[1..], domain)
  }

  method IsAmong(names: seq<string>, domain: string) returns (found: bool)
    ensures found == Among(names, domain)
  {
    for j := 0 to |names|
      invariant forall k :: 0 <= k < j ==> !EqualFold(names[k], domain)
    {
      if EqualFold(names[j], domain) { return true; }
    }
    return false;
  }

  method FindDomainOwner(dump: string, domain: string) returns (owner: Option<FileBlock>)
    ensures owner == Owner(Blocks(dump), domain)
  {
    var blocks := ParseDump(dump);
    for i := 0 to |blocks|
      invariant Owner(blocks, domain) == Owner(blocks[i..], domain)
    {
      assert blocks[i..][1..] == blocks[i + 1..];
      var found := IsAmong(blocks[i].serverNames, domain);
      if found { return Some(blocks[i]); }
    }
    return None;
  }

  lemma {:induction false} OwnerIs(blocks: seq<FileBlock>, domain: string)
    ensures Owner(blocks, domain) == None <==> forall i :: 0 <= i < |blocks| ==> !Among(blocks[i].serverNames, domain)
    ensures Owner(blocks, domain) != None ==>
      Owner(blocks, domain).value in blocks && Among(Owner(blocks, domain).value.serverNames, domain)
  {
    if blocks != [] { OwnerIs(blocks[1..], domain); }
  }

  // ---- a dump, put together ----

  datatype LoadedFile = LoadedFile(path: string, content: string)

  function MarkerLine(path: string): string { MARKER_START + (path + ":") }

  /** What nginx prints for one loaded file, and for a list of them. */
  function FileText(f: LoadedFile): string { MarkerLine(f.path) + [NL] + f.content + [NL] }

  function DumpText(files: seq<LoadedFile>): string {
    if files == [] then "" else DumpText(files[..|files| - 1]) + FileText(files[|files| - 1])
  }

  function SectionOf(f: LoadedFile): Section<string> { Section(f.path, Lines(f.content)) }

  function BlockOfFile(f: LoadedFile): FileBlock { BlockOf(SectionOf(f)) }

  function BlocksOfFiles(files: seq<LoadedFile>): seq<FileBlock> { Map(files, BlockOfFile) }

  ghost predicate Unmarked(lines: seq<string>) {
    forall i :: 0 <= i < |lines| ==> MarkerOf(lines[i]) == None
  }

  /** A file that can be told apart in a dump: its path is one line and none of its own lines is a marker. */
  ghost predicate Separable(f: LoadedFile) {
    f.path != "" && NL !in f.path && Unmarked(Lines(f.content))
  }

  lemma MarkerLineIs(path: string)
    requires path != "" && NL !in path
    ensures MarkerOf(MarkerLine(path)) == Some(path) && NL !in MarkerLine(path)
  {
    var rest := path + ":";
    var line := MarkerLine(path);
    assert line[0] == MARKER_START[0] && line[|line| - 1] == rest[|rest| - 1];
    TrimTight(line);
    AfterPrefix(MARKER_START, rest);
  }

  lemma EmptyLine()
    ensures Lines("") == [""] && MarkerOf("") == None && IsBlankLine("") && LineDomains("") == []
  {
    assert TrimLeft("") == "";
    assert ServerNames("") == None;
  }

  lemma FileLines(f: LoadedFile)
    requires Separable(f)
    ensures Lines(FileText(f)) == LinesOfFile(f) + [""]
  {
    EmptyLine();
    MarkerLineIs(f.path);
    SplitJoin([MarkerLine(f.path)], NL);
    assert FileText(f) == MarkerLine(f.path) + [NL] + (f.content + [NL] + "");
    SplitAcross(MarkerLine(f.path), f.content + [NL] + "", NL);
    SplitAcross(f.content, "", NL);
  }

  function AllLines(files: seq<LoadedFile>): seq<string> {
    if files == [] then []
    else
      var f := files[|files| - 1];
      AllLines(files[..|files| - 1]) + LinesOfFile(f)
  }

  function LinesOfFile(f: LoadedFile): seq<string> { [MarkerLine(f.path)] + Lines(f.content) }

  lemma AllLinesGrow(pre: seq<LoadedFile>, f: LoadedFile)
    ensures AllLines(pre + [f]) == AllLines(pre) + LinesOfFile(f)
  {
    assert (pre + [f])[..|pre|] == pre;
  }

  lemma LinesAfterBreak(text: string, more: string, before: seq<string>)
    requires Lines(text) == before + [""]
    ensures Lines(text + more) == before + Lines(more)
  {
    SplitConcat(text, more, NL);
    WeldBlank(before, Lines(more));
  }

  lemma WeldBlank(before: seq<string>, lines: seq<string>)
    requires lines != []
    ensures Weld(before + [""], lines) == before + lines
  {
    WeldAfter(before, [""], lines);
    assert "" + lines[0] == lines[0];
    HeadTail(lines);
    assert Weld([""], lines) == lines;
  }

  lemma {:induction false} LinesOfDump(files: seq<LoadedFile>)
    requires Every(files, Separable)
    ensures Lines(DumpText(files)) == AllLines(files) + [""]
  {
    if files == [] {
      EmptyLine();
    } else {
      var f, pre := files[|files| - 1], files[..|files| - 1];
      LinesOfDump(pre);
      FileLines(f);
      LinesAfterBreak(DumpText(pre), FileText(f), AllLines(pre));
    }
  }

  function SectionsOf(files: seq<LoadedFile>): seq<Section<string>> { Map(files, SectionOf) }

  lemma CutOneMore(lines: seq<string>, done: seq<Section<string>>, f: LoadedFile)
    requires Cut(lines, MarkerOf) == done && Separable(f)
    ensures Cut(lines + LinesOfFile(f), MarkerOf) == done + [SectionOf(f)]
  {
    MarkerLineIs(f.path);
    OneMore(lines, MarkerLine(f.path), Lines(f.content), f.path, MarkerOf);
    assert lines + [MarkerLine(f.path)] + Lines(f.content) == lines + LinesOfFile(f);
  }

  lemma CutDumpStep(pre: seq<LoadedFile>, f: LoadedFile)
    requires Cut(AllLines(pre), MarkerOf) == SectionsOf(pre) && Separable(f)
    ensures Cut(AllLines(pre + [f]), MarkerOf) == SectionsOf(pre + [f])
  {
    CutOneMore(AllLines(pre), SectionsOf(pre), f);
    AllLinesGrow(pre, f);
    MapGrow(pre, f, SectionOf);
  }

  lemma {:induction false} CutDump(files: seq<LoadedFile>, i: nat)
    requires i <= |files| && Every(files, Separable)
    ensures Cut(AllLines(files[..i]), MarkerOf) == SectionsOf(files[..i])
  {
    if i > 0 {
      CutDump(files, i - 1);
      CutDumpStep(files[..i - 1], files[i - 1]);
      TakeGrow(files, i - 1);
    }
  }

  /** The blank line a dump ends with adds nothing to its last block. */
  lemma TrailingBlank(s: Section<string>)
    ensures BlockOf(s.(body := s.body + [""])) == BlockOf(s)
  {
    EmptyLine();
    FirstNotGrow(s.body, "", IsBlankLine);
    FlatMapGrow(s.body, "", LineDomains);
  }

  lemma BlocksIgnoreBlank(ss: seq<Section<string>>)
    requires ss != []
    ensures BlocksOf(Grow(ss, "")) == BlocksOf(ss)
  {
    var pre, last := ss[..|ss| - 1], ss[|ss| - 1];
    TrailingBlank(last);
    assert ss == pre + [last];
    MapGrow(pre, last, BlockOf);
    MapGrow(pre, last.(body := last.body + [""]), BlockOf);
  }

  lemma IgnoresLastBlank(lines: seq<string>)
    ensures BlocksOf(Cut(lines + [""], MarkerOf)) == BlocksOf(Cut(lines, MarkerOf))
  {
    EmptyLine();
    var all := lines + [""];
    SectionsGrow(all, |lines|, MarkerOf);
    assert all[..|lines|] == lines && all[..|lines| + 1] == all;
    if Cut(lines, MarkerOf) != [] { BlocksIgnoreBlank(Cut(lines, MarkerOf)); }
  }

  /** Parsing a dump gives one block per loaded file, in order, saying what that file says about itself. */
  lemma BlocksOfDump(files: seq<LoadedFile>)
    requires Every(files, Separable)
    ensures Blocks(DumpText(files)) == BlocksOfFiles(files)
  {
    LinesOfDump(files);
    IgnoresLastBlank(AllLines(files));
    CutDump(files, |files|);
    assert files[..|files|] == files;
    assert Map(SectionsOf(files), BlockOf) == Map(files, BlockOfFile);
  }
}
