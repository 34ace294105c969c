/** The appletsrc file as panel_mirror.py reads it: bracketed headers whose text is kept
    whole, and group paths joined by "][". */
module ConfigPaths {
  import opened Options

  type Group = map<string, string>
  type Sections = map<string, Group>

  // ---------- group paths ----------

  const SEP := "]["

  /** Where the first separator starts, or the length if there is none. */
  function FirstSep(s: string): (r: nat)
    ensures r <= |s| && (r < |s| ==> r + 2 <= |s|)
  {
    if |s| < 2 then |s| else if s[0] == ']' && s[1] == '[' then 0 else 1 + FirstSep(s[1..])
  }

  /** Python's `s.split("][")`. */
  function Split(s: string): (r: seq<string>)
    ensures r != []
    decreases |s|
  {
    var i := FirstSep(s);
    if i == |s| then [s] else [s[..i]] + Split(s[i + 2..])
  }

  /** Nested groups under one header. */
  function Join(groups: seq<string>): string {
    if groups == [] then "" else if |groups| == 1 then groups[0] else groups[0] + SEP + Join(groups[1..])
  }

  lemma {:induction false} FirstSepFinds(s: string)
    requires FirstSep(s) < |s|
    ensures s == s[..FirstSep(s)] + SEP + s[FirstSep(s) + 2..]
  {
    if !(s[0] == ']' && s[1] == '[') {
      var t, i := s[1..], FirstSep(s[1..]);
      FirstSepFinds(t);
      assert s == [s[0]] + t;
      assert s[..i + 1] == [s[0]] + t[..i];
      assert s[i + 3..] == t[i + 2..];
    }
  }

  /** Splitting a path and joining it again gives the path, for every string. */
  lemma {:induction false} JoinSplit(s: string)
    ensures Join(Split(s)) == s
    decreases |s|
  {
    var i := FirstSep(s);
    if i < |s| {
      FirstSepFinds(s);
      JoinSplit(s[i + 2..]);
    }
  }

  lemma {:induction false} FirstSepAfter(p: string, rest: string)
    requires FirstSep(p) == |p|
    ensures FirstSep(p + SEP + rest) == |p|
  {
    var s := p + SEP + rest;
    if p == "" {
    } else {
      assert s[1..] == p[1..] + SEP + rest;
      FirstSepAfter(p[1..], rest);
    }
  }

  lemma SplitOnce(p: string, rest: string)
    requires FirstSep(p) == |p|
    ensures Split(p + SEP + rest) == [p] + Split(rest)
  {
    hide FirstSep;
    var s := p + SEP + rest;
    FirstSepAfter(p, rest);
    assert s[..|p|] == p && s[|p| + 2..] == rest;
  }

  /** And joining names is undone by splitting, as long as no name holds a separator. */
  lemma {:induction false} SplitJoin(groups: seq<string>)
    requires groups != [] && forall g <- groups :: FirstSep(g) == |g|
    ensures Split(Join(groups)) == groups
  {
    hide FirstSep;
    if |groups| > 1 {
      var rest := Join(groups[1..]);
      SplitJoin(groups[1..]);
      SplitOnce(groups[0], rest);
    }
  }

  lemma JoinCons(group: string, groups: seq<string>)
    requires groups != []
    ensures Join([group] + groups) == group + SEP + Join(groups)
  {
    assert ([group] + groups)[1..] == groups;
  }

  // ---------- names under a panel and under a widget ----------

  /** An id as Plasma prints it: no bracket in it. */
  predicate IsId(s: string) { ']' !in s }

  function PanelPrefix(panelId: string): string { "Containments][" + panelId + "][" }

  function AppletPrefix(panelId: string, appletId: string): string {
    PanelPrefix(panelId) + "Applets][" + appletId + "]["
  }

  predicate StartsWith(s: string, prefix: string) { prefix <= s }

  /** The header is the panel's own or belongs to something in it. */
  predicate OfPanel(name: string, panelId: string) {
    StartsWith(name + "][", PanelPrefix(panelId))
  }

  lemma OfPanelIff(name: string, panelId: string)
    ensures OfPanel(name, panelId) <==>
              || name == "Containments][" + panelId
              || exists rest :: name == "Containments][" + panelId + "][" + rest
  {
    var own := "Containments][" + panelId;
    var all := name + "][";
    assert PanelPrefix(panelId) == own + "][";
    if OfPanel(name, panelId) {
      var n := |own|;
      assert own + "][" == all[..n + 2];
      assert all[n] == ']' && all[n + 1] == '[';
      assert own == all[..n];
      if |name| >= n + 2 {
        assert name == own + "][" + name[n + 2..];
      } else {
        assert name == all[..|name|];
      }
    }
    if rest :| name == own + "][" + rest {
      assert all == own + "][" + (rest + "][");
    }
  }

  /** Writing by split-up group names reaches exactly the captured header. */
  lemma PathRejoins(panelId: string, appletId: string, suffix: string)
    ensures Join(["Containments", panelId, "Applets", appletId] + Split(suffix))
            == AppletPrefix(panelId, appletId) + suffix
  {
    hide Join;
    hide Split;
    var g0 := Split(suffix);
    var g1 := [appletId] + g0;
    var g2 := ["Applets"] + g1;
    var g3 := [panelId] + g2;
    JoinSplit(suffix);
    JoinCons(appletId, g0);
    JoinCons("Applets", g1);
    JoinCons(panelId, g2);
    JoinCons("Containments", g3);
    assert ["Containments", panelId, "Applets", appletId] + g0 == ["Containments"] + g3;
  }

  /** Two ids that both stand before a bracket in the same text are the same id. */
  lemma {:induction false} CutAtBracket(p: string, q: string, x: string, y: string)
    requires IsId(p) && IsId(q) && p + "]" + x == q + "]" + y
    ensures p == q && x == y
  {
    var s, t := p + "]" + x, q + "]" + y;
    assert p == "" || s[0] == p[0];
    assert q == "" || t[0] == q[0];
    if p != "" && q != "" {
      assert s[1..] == p[1..] + "]" + x && t[1..] == q[1..] + "]" + y;
      CutAtBracket(p[1..], q[1..], x, y);
    } else {
      assert s[1..] == x && t[1..] == y;
    }
  }

  lemma PrefixTail(s: string, a: string, b: string)
    requires a + b <= s
    ensures s[|a|..][..|b|] == b && s == a + b + s[|a| + |b|..]
  {
    assert (a + b)[|a|..] == b;
  }

  lemma SamePanel(name: string, p: string, q: string)
    requires IsId(p) && IsId(q) && OfPanel(name, p) && OfPanel(name, q)
    ensures p == q
  {
    var s := (name + "][")[14..];
    var x, y := s[|p| + 1..], s[|q| + 1..];
    assert s[..|p| + 2] == p + "][" by { PrefixTail(name + "][", "Containments][", p + "]["); }
    assert s[..|q| + 2] == q + "][" by { PrefixTail(name + "][", "Containments][", q + "]["); }
    assert s == p + "]" + x;
    assert s == q + "]" + y;
    CutAtBracket(p, q, x, y);
  }

  lemma OfApplet(name: string, p: string, a: string)
    requires StartsWith(name, AppletPrefix(p, a))
    ensures OfPanel(name, p)
  {
    assert name[..|PanelPrefix(p)|] == PanelPrefix(p);
  }

  /** No header belongs to two widgets, not even when one id is a prefix of the other. */
  lemma NoConfusion(name: string, p: string, a: string, q: string, b: string)
    requires IsId(p) && IsId(a) && IsId(q) && IsId(b)
    requires StartsWith(name, AppletPrefix(p, a)) && StartsWith(name, AppletPrefix(q, b))
    ensures p == q && a == b
  {
    OfApplet(name, p, a);
    OfApplet(name, q, b);
    SamePanel(name, p, q);
    var h := PanelPrefix(p) + "Applets][";
    var s := name[|h|..];
    PrefixTail(name, h, a + "][");
    PrefixTail(name, h, b + "][");
    assert AppletPrefix(p, a) == h + (a + "][") && AppletPrefix(p, b) == h + (b + "][");
    var x, y := s[|a| + 1..], s[|b| + 1..];
    assert s == a + "]" + x;
    assert s == b + "]" + y;
    CutAtBracket(a, b, x, y);
  }

  // ---------- the file ----------

  function GroupOf(sections: Sections, name: string): Group {
    if name in sections then sections[name] else map[]
  }

  /** The loop state of the parser. */
  datatype Reader = Reader(sections: Sections, current: Option<string>)

  const START := Reader(map[], None)

  predicate IsHeader(line: string) {
    line != "" && line[0] == '[' && line[|line| - 1] == ']'
  }

  /** Python's `line.partition("=")[0]`. */
  function KeyOf(line: string): (key: string)
    ensures |key| <= |line| && ('=' in line <==> |key| < |line|)
  {
    if line == "" || line[0] == '=' then "" else [line[0]] + KeyOf(line[1..])
  }

  function ReadLine(r: Reader, line: string): Reader {
    if line == "" then r
    else if IsHeader(line) then
      var name := line[1..|line| - 1];
      Reader(r.sections[name := GroupOf(r.sections, name)], Some(name))
    else if r.current.None? || '=' !in line then r
    else
      var name, key := r.current.value, KeyOf(line);
      r.(sections := r.sections[name := GroupOf(r.sections, name)[key := line[|key| + 1..]]])
  }

  function ReadFrom(r: Reader, lines: seq<string>): Reader
    decreases |lines|
  {
    if lines == [] then r else ReadFrom(ReadLine(r, lines[0]), lines[1..])
  }

  lemma {:induction false} ReadConcat(r: Reader, a: seq<string>, b: seq<string>)
    ensures ReadFrom(r, a + b) == ReadFrom(ReadFrom(r, a), b)
    decreases |a|
  {
    if a == [] {
      assert a + b == b;
    } else {
      ReadConcat(ReadLine(r, a[0]), a[1..], b);
      assert (a + b)[1..] == a[1..] + b;
    }
  }

  method ParseIniSections(lines: seq<string>) returns (sections: Sections)
    ensures sections == ReadFrom(START, lines).sections
  {
    sections := map[];
    var current: Option<string> := None;
    for i := 0 to |lines|
      invariant Reader(sections, current) == ReadFrom(START, lines[..i])
      invariant current.Some? ==> current.value in sections
    {
      ReadConcat(START, lines[..i], [lines[i]]);
      assert lines[..i + 1] == lines[..i] + [lines[i]];
      assert ReadFrom(START, lines[..i + 1]) == ReadLine(ReadFrom(START, lines[..i]), lines[i]);
      var line := lines[i];
      if line == "" { continue; }
      if IsHeader(line) {
        current := Some(line[1..|line| - 1]);
        if current.value !in sections { sections := sections[current.value := map[]]; }
        continue;
      }
      if current.None? || '=' !in line { continue; }
      var key := KeyOf(line);
      sections := sections[current.value := sections[current.value][key := line[|key| + 1..]]];
    }
    assert lines[..|lines|] == lines;
  }

  /** One header with its entries, as KConfig writes it; a header may come more than once. */
  datatype Block = Block(name: string, entries: seq<(string, string)>)

  function EntryLine(entry: (string, string)): string { entry.0 + "=" + entry.1 }

  function EntryLines(entries: seq<(string, string)>): seq<string> {
    if entries == [] then [] else [EntryLine(entries[0])] + EntryLines(entries[1..])
  }

  function Render(blocks: seq<Block>): seq<string> {
    if blocks == [] then []
    else ["[" + blocks[0].name + "]"] + EntryLines(blocks[0].entries) + Render(blocks[1..])
  }

  function StoreEntries(group: Group, entries: seq<(string, string)>): Group
    decreases |entries|
  {
    if entries == [] then group else StoreEntries(group[entries[0].0 := entries[0].1], entries[1..])
  }

  /** What the blocks say: later entries of the same header win. */
  function Store(sections: Sections, blocks: seq<Block>): Sections
    decreases |blocks|
  {
    if blocks == [] then sections
    else
      var b := blocks[0];
      Store(sections[b.name := StoreEntries(GroupOf(sections, b.name), b.entries)], blocks[1..])
  }

  /** The key holds no "=" and the line cannot be taken for a header. */
  predicate Plain(entry: (string, string)) {
    '=' !in entry.0 && !(EntryLine(entry)[0] == '[' && EntryLine(entry)[|EntryLine(entry)| - 1] == ']')
  }

  lemma {:induction false} KeyOfEntry(key: string, value: string)
    ensures KeyOf(key + "=" + value) == key <==> '=' !in key
  {
    var line := key + "=" + value;
    if key != "" {
      KeyOfEntry(key[1..], value);
      assert line[1..] == key[1..] + "=" + value;
      assert key == [key[0]] + key[1..];
      assert line[0] == key[0];
    }
  }

  /** An entry is read back under its own key exactly when it is plain. */
  lemma EntryReadsBack(name: string, entry: (string, string))
    ensures var before, after := map[name := map[]], map[name := map[entry.0 := entry.1]];
            ReadLine(Reader(before, Some(name)), EntryLine(entry)) == Reader(after, Some(name)) <==> Plain(entry)
  {
    var (key, value) := entry;
    var line := EntryLine(entry);
    KeyOfEntry(key, value);
    assert line[|key|] == '=';
    var r := ReadLine(Reader(map[name := map[]], Some(name)), line);
    var wanted := map[key := value];
    assert key in wanted;
    if IsHeader(line) {
      assert r.sections[name] == map[];
    } else {
      assert r.sections[name] == map[KeyOf(line) := line[|KeyOf(line)| + 1..]];
      assert '=' !in key ==> line[|key| + 1..] == value;
      assert KeyOf(line) in r.sections[name];
      assert r.sections[name] == wanted ==> KeyOf(line) == key;
    }
  }

  lemma EntryStores(r: Reader, entry: (string, string))
    requires Plain(entry) && r.current.Some? && r.current.value in r.sections
    ensures ReadLine(r, EntryLine(entry)) ==
            r.(sections := r.sections[r.current.value := r.sections[r.current.value][entry.0 := entry.1]])
  {
    var line := EntryLine(entry);
    KeyOfEntry(entry.0, entry.1);
    assert line[|entry.0|] == '=';
    assert line[|entry.0| + 1..] == entry.1;
  }

  lemma {:induction false} EntriesStore(r: Reader, entries: seq<(string, string)>)
    requires r.current.Some? && r.current.value in r.sections && forall e <- entries :: Plain(e)
    ensures ReadFrom(r, EntryLines(entries)) ==
            r.(sections := r.sections[r.current.value := StoreEntries(r.sections[r.current.value], entries)])
    decreases |entries|
  {
    hide Plain;
    hide ReadLine;
    if entries == [] {
      assert r.sections[r.current.value := r.sections[r.current.value]] == r.sections;
    } else {
      var next := ReadLine(r, EntryLine(entries[0]));
      EntryStores(r, entries[0]);
      EntriesStore(next, entries[1..]);
      assert EntryLines(entries)[1..] == EntryLines(entries[1..]);
    }
  }

  /** Whatever plain file is written, the parser reads back what it says. */
  lemma {:induction false} FileReadsBack(r: Reader, blocks: seq<Block>)
    requires forall b <- blocks :: forall e <- b.entries :: Plain(e)
    ensures ReadFrom(r, Render(blocks)).sections == Store(r.sections, blocks)
    decreases |blocks|
  {
    hide Plain;
    if blocks != [] {
      var b := blocks[0];
      var head := "[" + b.name + "]";
      var body, rest := EntryLines(b.entries), Render(blocks[1..]);
      assert head[1..|head| - 1] == b.name;
      var begun := ReadLine(r, head);
      assert begun == Reader(r.sections[b.name := GroupOf(r.sections, b.name)], Some(b.name));
      EntriesStore(begun, b.entries);
      var filled := ReadFrom(begun, body);
      ReadConcat(begun, body, rest);
      assert Render(blocks) == [head] + (body + rest);
      assert ReadFrom(r, Render(blocks)) == ReadFrom(filled, rest);
      assert filled.sections == r.sections[b.name := StoreEntries(GroupOf(r.sections, b.name), b.entries)];
      FileReadsBack(filled, blocks[1..]);
    }
  }

  /** A line that is neither a header nor an entry. */
  predicate Junk(line: string) {
    '=' !in line && (line == "" || line[0] != '[' || line[|line| - 1] != ']')
  }

  /** Such lines may stand anywhere in a file and change nothing; so may anything before the first
      header. */
  lemma JunkIsSkipped(r: Reader, before: seq<string>, line: string, after: seq<string>)
    requires Junk(line)
    ensures ReadFrom(r, before + [line] + after) == ReadFrom(r, before + after)
  {
    ReadConcat(r, before + [line], after);
    ReadConcat(r, before, [line]);
    ReadConcat(r, before, after);
  }

  lemma {:induction false} PreambleIsSkipped(lines: seq<string>)
    requires forall line <- lines :: line == "" || line[0] != '[' || line[|line| - 1] != ']'
    ensures ReadFrom(START, lines) == START
  {
    if lines != [] { PreambleIsSkipped(lines[1..]); }
  }

  // ---------- every plain map of sections has a file ----------

  ghost predicate PlainGroup(group: Group) {
    forall key <- group :: Plain((key, group[key]))
  }

  ghost predicate PlainSections(sections: Sections) {
    forall name <- sections :: PlainGroup(sections[name])
  }

  ghost predicate PlainBlocks(blocks: seq<Block>) {
    forall b <- blocks :: forall e <- b.entries :: Plain(e)
  }

  lemma {:induction false} StoreEntriesSnoc(group: Group, entries: seq<(string, string)>, e: (string, string))
    ensures StoreEntries(group, entries + [e]) == StoreEntries(group, entries)[e.0 := e.1]
    decreases |entries|
  {
    if entries == [] {
      assert [e][1..] == [];
    } else {
      StoreEntriesSnoc(group[entries[0].0 := entries[0].1], entries[1..], e);
      assert (entries + [e])[1..] == entries[1..] + [e];
    }
  }

  lemma {:induction false} StoreSnoc(sections: Sections, blocks: seq<Block>, b: Block)
    ensures var before := Store(sections, blocks);
            Store(sections, blocks + [b]) == before[b.name := StoreEntries(GroupOf(before, b.name), b.entries)]
    decreases |blocks|
  {
    if blocks == [] {
      assert [b][1..] == [];
    } else {
      StoreSnoc(sections[blocks[0].name := StoreEntries(GroupOf(sections, blocks[0].name), blocks[0].entries)],
                blocks[1..], b);
      assert (blocks + [b])[1..] == blocks[1..] + [b];
    }
  }

  lemma {:induction false} GroupCanBeWritten(group: Group) returns (entries: seq<(string, string)>)
    requires PlainGroup(group)
    ensures StoreEntries(map[], entries) == group && forall e <- entries :: Plain(e)
    decreases |group|
  {
    hide Plain;
    entries := [];
    if group != map[] {
      var key :| key in group;
      var rest := group - {key};
      assert |rest.Keys| < |group.Keys| by { assert rest.Keys == group.Keys - {key}; }
      entries := GroupCanBeWritten(rest);
      StoreEntriesSnoc(map[], entries, (key, group[key]));
      entries := entries + [(key, group[key])];
      assert rest[key := group[key]] == group;
    }
  }

  lemma {:induction false} SectionsCanBeWritten(sections: Sections) returns (blocks: seq<Block>)
    requires PlainSections(sections)
    ensures PlainBlocks(blocks) && Store(map[], blocks) == sections
    decreases |sections|
  {
    hide PlainGroup;
    hide Plain;
    blocks := [];
    if sections != map[] {
      var name :| name in sections;
      var rest := sections - {name};
      assert |rest.Keys| < |sections.Keys| by { assert rest.Keys == sections.Keys - {name}; }
      blocks := SectionsCanBeWritten(rest);
      var entries := GroupCanBeWritten(sections[name]);
      StoreSnoc(map[], blocks, Block(name, entries));
      blocks := blocks + [Block(name, entries)];
      assert rest[name := sections[name]] == sections;
    }
  }
}
