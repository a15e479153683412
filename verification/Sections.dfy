/** Splitting a list at marker elements. */
module Sections {
  import opened Text

  datatype Section<+L> = Section(name: string, body: seq<L>)

  /** The elements after each marker, up to the next one. What comes before the first marker belongs to no section. */
  function Cut<L>(lines: seq<L>, marker: L -> Option<string>): seq<Section<L>>
    decreases |lines|
  {
    if lines == [] then []
    else Extend(Cut(lines[..|lines| - 1], marker), lines[|lines| - 1], marker)
  }

  /** One more element: a new section, or the last one grown. */
  function Extend<L>(done: seq<Section<L>>, line: L, marker: L -> Option<string>): seq<Section<L>> {
    match marker(line)
    case Some(name) => done + [Section(name, [])]
    case None => if done == [] then [] else Grow(done, line)
  }

  function Grow<L>(done: seq<Section<L>>, line: L): seq<Section<L>>
    requires done != []
  {
    var last := done[|done| - 1];
    done[..|done| - 1] + [last.(body := last.body + [line])]
  }

  lemma SectionsGrow<L>(lines: seq<L>, i: nat, marker: L -> Option<string>)
    requires i < |lines|
    ensures Cut(lines[..i + 1], marker) == Extend(Cut(lines[..i], marker), lines[i], marker)
  {
    assert lines[..i + 1][..i] == lines[..i];
  }

  lemma {:induction false} Filled<L>(done: seq<Section<L>>, name: string, before: seq<L>, body: seq<L>, lines: seq<L>,
                                     marker: L -> Option<string>)
    requires forall i :: 0 <= i < |body| ==> marker(body[i]) == None
    requires Cut(lines, marker) == done + [Section(name, before)]
    ensures Cut(lines + body, marker) == done + [Section(name, before + body)]
    decreases |body|
  {
    if body == [] {
      assert lines + body == lines && before + body == before;
    } else {
      var x := body[0];
      assert (lines + [x])[..|lines|] == lines;
      assert Cut(lines + [x], marker) == done + [Section(name, before + [x])];
      Filled(done, name, before + [x], body[1..], lines + [x], marker);
      assert lines + [x] + body[1..] == lines + body && before + [x] + body[1..] == before + body;
    }
  }

  /** A marker and the elements after it are one section, appended to those before. */
  lemma OneMore<L>(lines: seq<L>, mark: L, body: seq<L>, name: string, marker: L -> Option<string>)
    requires marker(mark) == Some(name)
    requires forall i :: 0 <= i < |body| ==> marker(body[i]) == None
    ensures Cut(lines + [mark] + body, marker) == Cut(lines, marker) + [Section(name, body)]
  {
    assert (lines + [mark])[..|lines|] == lines;
    Filled(Cut(lines, marker), name, [], body, lines + [mark], marker);
    assert [] + body == body;
  }
}
