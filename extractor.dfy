/** The resource extractor: `loadStringResources` and the SAX handler it installs.
    The XML parser is not modelled; it is replaced by the sequence of callbacks it
    makes on the handler, and by how the parse ended. */
module Extractor {
  import opened Wrappers

  /** The SAX callbacks the handler overrides: `startElement` with the element's
      qualified name and its `name` attribute (absent: `None`), `endElement`, and
      `characters` with one chunk of text. */
  datatype Event =
    | StartElement(qName: string, nameAttr: Option<string>)
    | EndElement(qName: string)
    | Characters(text: string)

  /** The only path under which text is recorded. */
  const StringPath: seq<string> := ["resources", "string"]

  /** The comparison loop of `pathMatches` from index `i` on. */
  function EqualFrom(path: seq<string>, elms: seq<string>, i: nat): (r: bool)
    requires |path| == |elms| && i <= |path|
    ensures r <==> path[i..] == elms[i..]
    decreases |path| - i
  {
    if i == |path| then true
    else
      assert path[i..] == [path[i]] + path[i + 1..] && elms[i..] == [elms[i]] + elms[i + 1..];
      path[i] == elms[i] && EqualFrom(path, elms, i + 1)
  }

  /** `pathMatches(elms)`: the stack has exactly `|elms|` entries, equal position by
      position; that is, the stack is `elms`. */
  function PathMatches(path: seq<string>, elms: seq<string>): (r: bool)
    ensures r <==> path == elms
  {
    |path| == |elms| && EqualFrom(path, elms, 0)
  }

  /** The handler's state: the stack `mPath` (bottom first), the pending `mId` and the
      map `fEntries`, whose keys may be `null` (`None`). */
  datatype Handler = Handler(path: seq<string>, id: Option<string>, entries: map<Option<string>, string>)

  /** One callback. */
  function Step(h: Handler, e: Event): Handler
    requires e.EndElement? ==> |h.path| > 0
  {
    match e
    case StartElement(qName, nameAttr) =>
      var p := h.path + [qName];
      h.(path := p, id := if PathMatches(p, StringPath) then nameAttr else h.id)
    case EndElement(_) =>
      h.(id := None, path := h.path[..|h.path| - 1])
    case Characters(text) =>
      if PathMatches(h.path, StringPath) then h.(entries := h.entries[h.id := text]) else h
  }

  /** How much a callback changes the element depth. */
  function Delta(e: Event): int
  {
    match e
    case StartElement(_, _) => 1
    case EndElement(_) => -1
    case Characters(_) => 0
  }

  /** Elements opened minus elements closed. */
  function Depth(evs: seq<Event>): int
    decreases |evs|
  {
    if evs == [] then 0 else Depth(evs[..|evs| - 1]) + Delta(evs[|evs| - 1])
  }

  /** Starting at depth `d`, no prefix closes more elements than are open: the parser
      only reports the end of an element it reported the start of. */
  predicate Nested(d: int, evs: seq<Event>)
  {
    forall k :: 0 <= k <= |evs| ==> d + Depth(evs[..k]) >= 0
  }

  lemma NestedPrefix(d: int, evs: seq<Event>, n: nat)
    requires Nested(d, evs) && n <= |evs|
    ensures Nested(d, evs[..n])
  {
    forall k | 0 <= k <= n ensures d + Depth(evs[..n][..k]) >= 0 {
      assert evs[..n][..k] == evs[..k];
    }
  }

  /** The handler run over a callback sequence. The stack depth is the element depth. */
  function Run(h: Handler, evs: seq<Event>): (r: Handler)
    requires Nested(|h.path|, evs)
    ensures |r.path| == |h.path| + Depth(evs)
    decreases |evs|
  {
    if evs == [] then h
    else
      var n := |evs| - 1;
      NestedPrefix(|h.path|, evs, n);
      assert evs[..|evs|] == evs;
      Step(Run(h, evs[..n]), evs[n])
  }

  lemma RunAppend(h: Handler, evs: seq<Event>, e: Event)
    requires Nested(|h.path|, evs + [e])
    ensures Nested(|h.path|, evs)
    ensures e.EndElement? ==> |Run(h, evs).path| > 0
    ensures Run(h, evs + [e]) == Step(Run(h, evs), e)
  {
    assert (evs + [e])[..|evs|] == evs;
    assert (evs + [e])[..|evs| + 1] == evs + [e];
    assert Depth(evs + [e]) == Depth(evs) + Delta(e);
    NestedPrefix(|h.path|, evs + [e], |evs|);
  }

  /** The anonymous `DefaultHandler` of `loadStringResources`. It writes into the map
      it was created with; here that map is its own field. */
  class ResourceHandler {
    var path: seq<string>
    var id: Option<string>
    var entries: map<Option<string>, string>

    constructor (entries0: map<Option<string>, string>)
      ensures path == [] && id == None && entries == entries0
    {
      path := [];
      id := None;
      entries := entries0;
    }

    function State(): Handler
      reads this
    {
      Handler(path, id, entries)
    }

    /** Pushes the name; on reaching `resources/string` takes the `name` attribute as the id. */
    method StartElement(qName: string, nameAttr: Option<string>)
      modifies this
      ensures path == old(path) + [qName]
      ensures id == if path == StringPath then nameAttr else old(id)
      ensures entries == old(entries)
    {
      path := path + [qName];
      if PathMatches(path, StringPath) {
        id := nameAttr;
      }
    }

    /** Clears the id and pops the stack. */
    method EndElement(qName: string)
      requires |path| > 0
      modifies this
      ensures id == None
      ensures path == old(path)[..|old(path)| - 1]
      ensures entries == old(entries)
    {
      id := None;
      path := path[..|path| - 1];
    }

    /** At `resources/string`, stores the chunk under the id, replacing what was there. */
    method Characters(text: string)
      modifies this
      ensures path == old(path) && id == old(id)
      ensures entries == if old(path) == StringPath then old(entries)[old(id) := text] else old(entries)
    {
      if PathMatches(path, StringPath) {
        entries := entries[id := text];
      }
    }
  }

  /** How the parse ended: normally, with a `SAXException` (which propagates to the
      caller), or with an `IOException` or `ParserConfigurationException` (which
      `loadStringResources` catches, returning what it had collected). */
  datatype Ending = Completed | SaxError | IoError

  /** A parsed input file: the callbacks made before the parse ended, and how it ended. */
  datatype Document = Document(events: seq<Event>, ending: Ending)

  predicate WellFormed(doc: Document)
  {
    Nested(0, doc.events)
  }

  datatype LoadError = SaxException

  /** `loadStringResources(file, entries)` as a value. */
  function Load(entries: map<Option<string>, string>, doc: Document): Result<map<Option<string>, string>, LoadError>
    requires WellFormed(doc)
  {
    if doc.ending == SaxError then Err(SaxException)
    else Ok(Run(Handler([], None, entries), doc.events).entries)
  }

  /** `loadStringResources`: copy the accumulator, feed the callbacks to a fresh
      handler, and return the map unless the parse threw a `SAXException`. */
  method LoadStringResources(entries: map<Option<string>, string>, doc: Document)
    returns (r: Result<map<Option<string>, string>, LoadError>)
    requires WellFormed(doc)
    ensures r == Load(entries, doc)
  {
    var handler := new ResourceHandler(entries);
    var evs := doc.events;
    for i := 0 to |evs|
      invariant Nested(0, evs[..i])
      invariant handler.State() == Run(Handler([], None, entries), evs[..i])
    {
      assert evs[..i + 1] == evs[..i] + [evs[i]];
      NestedPrefix(0, evs, i + 1);
      RunAppend(Handler([], None, entries), evs[..i], evs[i]);
      match evs[i] {
        case StartElement(qName, nameAttr) => handler.StartElement(qName, nameAttr);
        case EndElement(qName) => handler.EndElement(qName);
        case Characters(text) => handler.Characters(text);
      }
    }
    assert evs[..|evs|] == evs;
    if doc.ending == SaxError {
      r := Err(SaxException);
    } else {
      r := Ok(handler.entries);
    }
  }

  // ---------------------------------------------------------------------------
  // Properties of the handler.

  /** The entries one file defines on its own. */
  function FileEntries(doc: Document): map<Option<string>, string>
    requires WellFormed(doc)
  {
    Run(Handler([], None, map[]), doc.events).entries
  }

  /** What the handler records does not depend on what the map held before: the run
      from `acc + m` ends with `acc` overridden by the run from `m`. */
  lemma {:induction false} RunOverrides(p: seq<string>, i: Option<string>, acc: map<Option<string>, string>,
                                        m: map<Option<string>, string>, evs: seq<Event>)
    requires Nested(|p|, evs)
    ensures Run(Handler(p, i, acc + m), evs) ==
            Run(Handler(p, i, m), evs).(entries := acc + Run(Handler(p, i, m), evs).entries)
    decreases |evs|
  {
    if evs != [] {
      var n := |evs| - 1;
      var pre, e := evs[..n], evs[n];
      assert evs == pre + [e];
      RunAppend(Handler(p, i, acc + m), pre, e);
      RunAppend(Handler(p, i, m), pre, e);
      RunOverrides(p, i, acc, m, pre);
      var a := Run(Handler(p, i, acc + m), pre);
      var b := Run(Handler(p, i, m), pre);
      assert a.path == b.path && a.id == b.id && a.entries == acc + b.entries;
      StepOverrides(a, b, acc, e);
    }
  }

  /** One callback preserves "same stack and id, entries overridden by `acc`". */
  lemma StepOverrides(a: Handler, b: Handler, acc: map<Option<string>, string>, e: Event)
    requires a.path == b.path && a.id == b.id && a.entries == acc + b.entries
    requires e.EndElement? ==> |b.path| > 0
    ensures Step(a, e) == Step(b, e).(entries := acc + Step(b, e).entries)
  {
    if e.Characters? && b.path == StringPath {
      assert (acc + b.entries)[b.id := e.text] == acc + b.entries[b.id := e.text];
    }
  }

  /** The file's result is the incoming map overridden by the file's own entries: every
      incoming key survives, and the file's keys take the file's values. */
  lemma LoadOverrides(acc: map<Option<string>, string>, doc: Document)
    requires WellFormed(doc)
    requires doc.ending != SaxError
    ensures Load(acc, doc) == Ok(acc + FileEntries(doc))
    ensures acc.Keys <= Load(acc, doc).value.Keys
  {
    assert acc + map[] == acc;
    RunOverrides([], None, acc, map[], doc.events);
  }

  /** Callback `i` stores a chunk under `k`: it is text, and the stack is exactly
      `resources/string` with the pending id `k`. */
  predicate RecordsAt(h: Handler, evs: seq<Event>, i: nat, k: Option<string>)
    requires Nested(|h.path|, evs) && i < |evs|
  {
    NestedPrefix(|h.path|, evs, i);
    evs[i].Characters? && Run(h, evs[..i]).path == StringPath && Run(h, evs[..i]).id == k
  }

  lemma RecordsAtPrefix(h: Handler, evs: seq<Event>, n: nat, j: nat, k: Option<string>)
    requires Nested(|h.path|, evs) && j < n <= |evs|
    ensures Nested(|h.path|, evs[..n])
    ensures RecordsAt(h, evs[..n], j, k) == RecordsAt(h, evs, j, k)
  {
    NestedPrefix(|h.path|, evs, n);
    assert evs[..n][..j] == evs[..j];
  }

  /** Chunks overwrite: the value under `k` is the text of the last chunk stored under `k`. */
  lemma {:induction false} LastChunkWins(h: Handler, evs: seq<Event>, i: nat, k: Option<string>)
    requires Nested(|h.path|, evs) && i < |evs|
    requires RecordsAt(h, evs, i, k)
    requires forall j :: i < j < |evs| ==> !RecordsAt(h, evs, j, k)
    ensures k in Run(h, evs).entries && Run(h, evs).entries[k] == evs[i].text
    decreases |evs|
  {
    var n := |evs| - 1;
    assert evs == evs[..n] + [evs[n]];
    RunAppend(h, evs[..n], evs[n]);
    var r := Run(h, evs[..n]);
    if i < n {
      RecordsAtPrefix(h, evs, n, i, k);
      forall j | i < j < n ensures !RecordsAt(h, evs[..n], j, k) {
        RecordsAtPrefix(h, evs, n, j, k);
      }
      LastChunkWins(h, evs[..n], i, k);
      assert !RecordsAt(h, evs, n, k);
    } else {
      NestedPrefix(|h.path|, evs, n);
    }
  }

  /** A key nothing is stored under keeps the value it came in with, or stays absent. */
  lemma {:induction false} UnrecordedKeyKept(h: Handler, evs: seq<Event>, k: Option<string>)
    requires Nested(|h.path|, evs)
    requires forall j :: 0 <= j < |evs| ==> !RecordsAt(h, evs, j, k)
    ensures k in Run(h, evs).entries <==> k in h.entries
    ensures k in h.entries ==> Run(h, evs).entries[k] == h.entries[k]
    decreases |evs|
  {
    if evs != [] {
      var n := |evs| - 1;
      assert evs == evs[..n] + [evs[n]];
      RunAppend(h, evs[..n], evs[n]);
      forall j | 0 <= j < n ensures !RecordsAt(h, evs[..n], j, k) {
        RecordsAtPrefix(h, evs, n, j, k);
      }
      UnrecordedKeyKept(h, evs[..n], k);
      NestedPrefix(|h.path|, evs, n);
      assert !RecordsAt(h, evs, n, k);
    }
  }

  /** Callback `i` enters a `string` element directly under `resources` whose `name`
      attribute is `k`. */
  predicate EntersStringAt(h: Handler, evs: seq<Event>, i: nat, k: string)
    requires Nested(|h.path|, evs) && i < |evs|
  {
    NestedPrefix(|h.path|, evs, i);
    evs[i].StartElement? && evs[i].nameAttr == Some(k) && Run(h, evs[..i]).path + [evs[i].qName] == StringPath
  }

  /** The pending id comes only from the `name` attribute of a `string` element
      entered directly under `resources`: if it is set at the end of a run that began
      without one, some such element carried it. */
  lemma {:induction false} IdFromStringElement(h: Handler, evs: seq<Event>, k: string)
    requires Nested(|h.path|, evs)
    requires h.id == None
    requires Run(h, evs).id == Some(k)
    ensures exists i :: 0 <= i < |evs| && EntersStringAt(h, evs, i, k)
    decreases |evs|
  {
    var n := |evs| - 1;
    assert evs == evs[..n] + [evs[n]];
    RunAppend(h, evs[..n], evs[n]);
    var r := Run(h, evs[..n]);
    NestedPrefix(|h.path|, evs, n);
    if evs[n].StartElement? && r.path + [evs[n].qName] == StringPath {
      assert EntersStringAt(h, evs, n, k);
    } else {
      assert r.id == Some(k);
      IdFromStringElement(h, evs[..n], k);
      var i :| 0 <= i < n && EntersStringAt(h, evs[..n], i, k);
      assert evs[..n][..i] == evs[..i];
      NestedPrefix(|h.path|, evs, i);
      assert EntersStringAt(h, evs, i, k);
    }
  }

  /** A closing tag always clears the pending id, so text after a nested child has
      closed is stored under the `null` key. */
  lemma EndClearsId(h: Handler, q: string, t: string)
    requires |h.path| > 0
    requires Step(h, EndElement(q)).path == StringPath
    ensures Step(Step(h, EndElement(q)), Characters(t)).entries == h.entries[None := t]
  {
  }

  /** Text is stored only when the stack is exactly `resources/string`: text directly
      under `resources`, or inside a `string` element nested deeper, changes nothing. */
  lemma TextOnlyAtStringPath(h: Handler, t: string)
    ensures Step(h, Characters(t)).entries ==
            if h.path == StringPath then h.entries[h.id := t] else h.entries
    ensures |h.path| != 2 ==> Step(h, Characters(t)).entries == h.entries
  {
  }

  // ---------------------------------------------------------------------------
  // Worked documents.

  /** Appending a callback the stack can take keeps the sequence nested. */
  lemma Extend(h: Handler, evs: seq<Event>, e: Event)
    requires Nested(|h.path|, evs)
    requires e.EndElement? ==> |Run(h, evs).path| > 0
    ensures Nested(|h.path|, evs + [e])
    ensures Run(h, evs + [e]) == Step(Run(h, evs), e)
  {
    var s := evs + [e];
    assert s[..|evs|] == evs;
    assert Depth(s) == Depth(evs) + Delta(e);
    assert |Run(h, evs).path| == |h.path| + Depth(evs);
    forall k | 0 <= k <= |s| ensures |h.path| + Depth(s[..k]) >= 0 {
      if k == |s| {
        assert s[..k] == s;
      } else {
        assert s[..k] == evs[..k];
      }
    }
  }

  /** One more callback, with the handler states before and after it given. */
  lemma RunStep(h: Handler, evs: seq<Event>, e: Event, before: Handler, after: Handler)
    requires Nested(|h.path|, evs) && Run(h, evs) == before
    requires e.EndElement? ==> |before.path| > 0
    requires Step(before, e) == after
    ensures Nested(|h.path|, evs + [e]) && Run(h, evs + [e]) == after
  {
    Extend(h, evs, e);
  }

  lemma RunEmpty(h: Handler)
    ensures Nested(|h.path|, []) && Run(h, []) == h
  {
    assert Depth([][..0]) == 0;
  }

  /** `<resources><string name="app_name">Demo</string></resources>` defines one entry. */
  lemma SingleStringExample()
    ensures var doc := Document([StartElement("resources", None), StartElement("string", Some("app_name")),
                                 Characters("Demo"), EndElement("string"), EndElement("resources")], Completed);
            WellFormed(doc) && FileEntries(doc) == map[Some("app_name") := "Demo"]
  {
    var e0, e1, e2 := StartElement("resources", None), StartElement("string", Some("app_name")), Characters("Demo");
    var e3, e4 := EndElement("string"), EndElement("resources");
    var m := map[Some("app_name") := "Demo"];
    var h0 := Handler([], None, map[]);
    var h1 := Handler(["resources"], None, map[]);
    var h2 := Handler(["resources", "string"], Some("app_name"), map[]);
    var h3 := Handler(["resources", "string"], Some("app_name"), m);
    var h4 := Handler(["resources"], None, m);
    var h5 := Handler([], None, m);
    RunEmpty(h0);
    var p0: seq<Event> := [];
    RunStep(h0, p0, e0, h0, h1);
    var p1 := p0 + [e0];
    RunStep(h0, p1, e1, h1, h2);
    var p2 := p1 + [e1];
    RunStep(h0, p2, e2, h2, h3);
    var p3 := p2 + [e2];
    RunStep(h0, p3, e3, h3, h4);
    var p4 := p3 + [e3];
    RunStep(h0, p4, e4, h4, h5);
    var p5 := p4 + [e4];
    assert p5 == [e0, e1, e2, e3, e4];
  }

  /** A `string` element one level too deep,
      `<resources><group><string name="x">v</string></group></resources>`, defines nothing. */
  lemma NestedStringIgnoredExample()
    ensures var doc := Document([StartElement("resources", None), StartElement("group", None),
                                 StartElement("string", Some("x")), Characters("v"),
                                 EndElement("string"), EndElement("group"), EndElement("resources")], Completed);
            WellFormed(doc) && FileEntries(doc) == map[]
  {
    var e0, e1, e2, e3 := StartElement("resources", None), StartElement("group", None),
                          StartElement("string", Some("x")), Characters("v");
    var e4, e5, e6 := EndElement("string"), EndElement("group"), EndElement("resources");
    var h0 := Handler([], None, map[]);
    var h1 := Handler(["resources"], None, map[]);
    var h2 := Handler(["resources", "group"], None, map[]);
    var h3 := Handler(["resources", "group", "string"], None, map[]);
    var h5 := Handler(["resources", "group"], None, map[]);
    var h6 := Handler(["resources"], None, map[]);
    RunEmpty(h0);
    var p0: seq<Event> := [];
    RunStep(h0, p0, e0, h0, h1);
    var p1 := p0 + [e0];
    RunStep(h0, p1, e1, h1, h2);
    var p2 := p1 + [e1];
    RunStep(h0, p2, e2, h2, h3);
    var p3 := p2 + [e2];
    RunStep(h0, p3, e3, h3, h3);
    var p4 := p3 + [e3];
    RunStep(h0, p4, e4, h3, h5);
    var p5 := p4 + [e4];
    RunStep(h0, p5, e5, h5, h6);
    var p6 := p5 + [e5];
    RunStep(h0, p6, e6, h6, h0);
    var p7 := p6 + [e6];
    assert p7 == [e0, e1, e2, e3, e4, e5, e6];
  }

  /** `<resources><string name="a">` with the chunks "x" and "y", a child `<b/>`, then
      the chunk "z": the last chunk before the child replaces the first, and the text
      after the child goes under the `null` key. */
  lemma ChunksAndChildExample()
    ensures var doc := Document([StartElement("resources", None), StartElement("string", Some("a")),
                                 Characters("x"), Characters("y"), StartElement("b", None), EndElement("b"),
                                 Characters("z")], IoError);
            WellFormed(doc) && FileEntries(doc) == map[Some("a") := "y", None := "z"]
  {
    var e0, e1, e2, e3 := StartElement("resources", None), StartElement("string", Some("a")),
                          Characters("x"), Characters("y");
    var e4, e5, e6 := StartElement("b", None), EndElement("b"), Characters("z");
    var s := ["resources", "string"];
    var h0 := Handler([], None, map[]);
    var h1 := Handler(["resources"], None, map[]);
    var h2 := Handler(s, Some("a"), map[]);
    var h3 := Handler(s, Some("a"), map[Some("a") := "x"]);
    var h4 := Handler(s, Some("a"), map[Some("a") := "y"]);
    var h5 := Handler(s + ["b"], Some("a"), map[Some("a") := "y"]);
    var h6 := Handler(s, None, map[Some("a") := "y"]);
    var h7 := Handler(s, None, map[Some("a") := "y", None := "z"]);
    RunEmpty(h0);
    var p0: seq<Event> := [];
    RunStep(h0, p0, e0, h0, h1);
    var p1 := p0 + [e0];
    RunStep(h0, p1, e1, h1, h2);
    var p2 := p1 + [e1];
    RunStep(h0, p2, e2, h2, h3);
    var p3 := p2 + [e2];
    assert map[Some("a") := "x"][Some("a") := "y"] == map[Some("a") := "y"];
    RunStep(h0, p3, e3, h3, h4);
    var p4 := p3 + [e3];
    RunStep(h0, p4, e4, h4, h5);
    var p5 := p4 + [e4];
    assert (s + ["b"])[..2] == s;
    RunStep(h0, p5, e5, h5, h6);
    var p6 := p5 + [e5];
    assert map[Some("a") := "y"][None := "z"] == map[Some("a") := "y", None := "z"];
    RunStep(h0, p6, e6, h6, h7);
    var p7 := p6 + [e6];
    assert p7 == [e0, e1, e2, e3, e4, e5, e6];
  }
}
