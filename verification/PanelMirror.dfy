/** The panel mirror (panel_mirror.py): capturing a panel, rebuilding one from a capture, and
    the reconciler that makes every screen's panel follow the one edited last. Each run is
    atomic; geometry reads back as it was written. */
module PanelMirror {
  import opened Options
  import opened ConfigPaths
  import Seqs
  import opened Sets

  // ---------- what Plasma holds ----------

  /** A panel: its AppletOrder, and the type of every applet in it. */
  datatype Panel = Panel(id: string, order: seq<string>, applets: map<string, string>, geometry: string)

  /** The panels at one location by screen, and the parsed appletsrc file. */
  datatype Desktop = Desktop(panels: map<int, Panel>, sections: Sections)

  datatype Ref = Ref(kind: string, id: string)

  /** A widget's config groups by suffix path. */
  type Config = map<string, Group>

  datatype Widget = Widget(kind: string, config: Config)

  datatype Spec = Spec(geometry: string, widgets: seq<Widget>)

  // ---------- capturing ----------

  /** The widgets in on-screen order; ids without an applet are skipped. */
  function Refs(order: seq<string>, applets: map<string, string>): seq<Ref> {
    if order == [] then []
    else (if order[0] in applets then [Ref(applets[order[0]], order[0])] else []) + Refs(order[1..], applets)
  }

  /** What follows the prefix in the headers that have it. */
  function Suffixes(sections: Sections, prefix: string): (r: set<string>)
    ensures forall s :: s in r <==> prefix + s in sections
  {
    var r := set n | n in sections && StartsWith(n, prefix) :: n[|prefix|..];
    assert forall s :: prefix + s in sections ==> StartsWith(prefix + s, prefix) && (prefix + s)[|prefix|..] == s;
    assert forall n :: StartsWith(n, prefix) ==> prefix + n[|prefix|..] == n;
    r
  }

  /** Neither an empty group nor a nested applet's. */
  predicate Kept(suffix: string, kv: Group) { kv != map[] && !StartsWith(suffix, "Applets][") }

  function CaptureUnder(sections: Sections, prefix: string): Config {
    map s | s in Suffixes(sections, prefix) && Kept(s, sections[prefix + s]) :: sections[prefix + s]
  }

  function CaptureConfig(sections: Sections, panelId: string, appletId: string): Config {
    CaptureUnder(sections, AppletPrefix(panelId, appletId))
  }

  function CaptureWidgets(sections: Sections, panelId: string, refs: seq<Ref>): seq<Widget> {
    if refs == [] then []
    else
      [Widget(refs[0].kind, CaptureConfig(sections, panelId, refs[0].id))]
      + CaptureWidgets(sections, panelId, refs[1..])
  }

  function CapturePanel(sections: Sections, p: Panel): Spec {
    Spec(p.geometry, CaptureWidgets(sections, p.id, Refs(p.order, p.applets)))
  }

  function Capture(d: Desktop, screen: int): Option<Spec> {
    if screen in d.panels then Some(CapturePanel(d.sections, d.panels[screen])) else None
  }

  // ---------- rebuilding ----------

  /** What Plasma makes up for a rebuilt panel: its id, its applets' ids, and whatever the new
      panel and its widgets write on being created. */
  datatype Birth = Birth(panelId: string, ids: seq<string>, sections: Sections)

  predicate Distinct(ids: seq<string>) {
    forall i, j :: 0 <= i < j < |ids| ==> ids[i] != ids[j]
  }

  /** New ids, written like ids. The new panel and its widgets may write any config of their own. */
  ghost predicate BirthOk(d: Desktop, n: nat, b: Birth) {
    && |b.ids| == n && Distinct(b.ids) && IsId(b.panelId) && (forall id <- b.ids :: IsId(id))
    && (forall s <- d.panels :: d.panels[s].id != b.panelId)
    && (forall name <- d.sections :: !OfPanel(name, b.panelId))
    && (forall name <- b.sections :: OfPanel(name, b.panelId))
  }

  /** The config a new widget wrote on being created. */
  function Own(b: Birth, i: nat): Config
    requires i < |b.ids|
  {
    CaptureConfig(b.sections, b.panelId, b.ids[i])
  }

  function Types(ids: seq<string>, widgets: seq<Widget>): map<string, string>
    requires |ids| == |widgets|
  {
    if ids == [] then map[]
    else Types(ids[..|ids| - 1], widgets[..|ids| - 1])[ids[|ids| - 1] := widgets[|ids| - 1].kind]
  }

  /** The script: the old panel goes with its groups, the new one comes. */
  function Rebuild(d: Desktop, screen: int, spec: Spec, b: Birth): Desktop
    requires |b.ids| == |spec.widgets|
  {
    var left := map n | n in d.sections && !(screen in d.panels && OfPanel(n, d.panels[screen].id)) :: d.sections[n];
    var panel := Panel(b.panelId, b.ids, Types(b.ids, spec.widgets), spec.geometry);
    Desktop(d.panels[screen := panel], left + b.sections)
  }

  /** Writing groups under a prefix on top of what is there. */
  function PutConfig(sections: Sections, prefix: string, config: Config): Sections {
    map n | n in sections.Keys + (set s | s in config && config[s] != map[] :: prefix + s) ::
      GroupOf(sections, n) + if StartsWith(n, prefix) then GroupOf(config, n[|prefix|..]) else map[]
  }

  function PutWidgets(sections: Sections, panelId: string, ids: seq<string>, widgets: seq<Widget>): Sections
    requires |ids| == |widgets|
  {
    if ids == [] then sections
    else
      var n := |ids| - 1;
      PutConfig(PutWidgets(sections, panelId, ids[..n], widgets[..n]), AppletPrefix(panelId, ids[n]), widgets[n].config)
  }

  function Apply(d: Desktop, screen: int, spec: Spec, b: Birth): Desktop
    requires |b.ids| == |spec.widgets|
  {
    var r := Rebuild(d, screen, spec, b);
    r.(sections := PutWidgets(r.sections, b.panelId, b.ids, spec.widgets))
  }

  // ---------- a capture after a rebuild ----------

  predicate CapturableConfig(config: Config) {
    forall s <- config :: Kept(s, config[s])
  }

  predicate Capturable(spec: Spec) {
    forall w <- spec.widgets :: CapturableConfig(w.config)
  }

  lemma {:induction false} CaptureWidgetsAt(sections: Sections, panelId: string, refs: seq<Ref>, i: nat)
    requires i < |refs|
    ensures var ws := CaptureWidgets(sections, panelId, refs);
            |ws| == |refs| && ws[i] == Widget(refs[i].kind, CaptureConfig(sections, panelId, refs[i].id))
  {
    hide CaptureConfig;
    if |refs| > 1 { CaptureWidgetsAt(sections, panelId, refs[1..], if i > 0 then i - 1 else 0); }
  }

  lemma {:induction false} CaptureWidgetsLength(sections: Sections, panelId: string, refs: seq<Ref>)
    ensures |CaptureWidgets(sections, panelId, refs)| == |refs|
  {
    if refs != [] { CaptureWidgetsLength(sections, panelId, refs[1..]); }
  }

  /** Everything captured can be captured again. */
  lemma CapturesAreCapturable(sections: Sections, p: Panel)
    ensures Capturable(CapturePanel(sections, p))
  {
    hide CaptureWidgets;
    hide Suffixes;
    var refs := Refs(p.order, p.applets);
    var ws := CaptureWidgets(sections, p.id, refs);
    CaptureWidgetsLength(sections, p.id, refs);
    forall w <- ws ensures CapturableConfig(w.config) {
      var i :| 0 <= i < |ws| && ws[i] == w;
      CaptureWidgetsAt(sections, p.id, refs, i);
    }
  }

  lemma PutConfigAt(sections: Sections, prefix: string, config: Config, name: string)
    ensures !StartsWith(name, prefix) ==>
              (name in PutConfig(sections, prefix, config) <==> name in sections)
              && GroupOf(PutConfig(sections, prefix, config), name) == GroupOf(sections, name)
    ensures StartsWith(name, prefix) ==>
              GroupOf(PutConfig(sections, prefix, config), name)
              == GroupOf(sections, name) + GroupOf(config, name[|prefix|..])
  {
    assert StartsWith(name, prefix) ==> prefix + name[|prefix|..] == name;
    assert forall s :: StartsWith(prefix + s, prefix) && (prefix + s)[|prefix|..] == s;
  }

  lemma PutConfigNames(sections: Sections, prefix: string, config: Config, suffix: string)
    ensures prefix + suffix in PutConfig(sections, prefix, config) <==>
              prefix + suffix in sections || GroupOf(config, suffix) != map[]
  {
    assert forall s :: prefix + s == prefix + suffix ==> (prefix + s)[|prefix|..] == (prefix + suffix)[|prefix|..];
    assert forall s :: (prefix + s)[|prefix|..] == s;
  }

  lemma CaptureAt(sections: Sections, prefix: string, s: string)
    ensures var c := CaptureUnder(sections, prefix);
            && (s in c <==> Kept(s, GroupOf(sections, prefix + s)))
            && GroupOf(c, s) == if s in c then GroupOf(sections, prefix + s) else map[]
  {
  }

  /** A config written on top of another one. */
  function Over(own: Config, config: Config): Config {
    map s | s in own.Keys + config.Keys :: GroupOf(own, s) + GroupOf(config, s)
  }

  /** Every key of every group of `own` is overwritten by `config`. */
  predicate Covers(config: Config, own: Config) {
    forall s <- own :: s in config && own[s].Keys <= config[s].Keys
  }

  lemma OverIsConfig(own: Config, config: Config)
    ensures Over(own, config) == config <==> Covers(config, own)
  {
    var over := Over(own, config);
    if Covers(config, own) {
      forall s <- over ensures s in config && over[s] == config[s] {
      }
    } else {
      var s :| s in own && !(s in config && own[s].Keys <= config[s].Keys);
      assert s in over;
      if s in config {
        var key :| key in own[s] && key !in config[s];
        assert key in over[s];
      }
    }
  }

  lemma UnionEmpty(a: Group, b: Group)
    ensures a + b == map[] <==> a == map[] && b == map[]
    ensures a + map[] == a
  {
    assert (a + b).Keys == a.Keys + b.Keys;
  }

  /** Whatever stood under the prefix, writing a config there is seen as writing over it. */
  lemma PutShows(sections: Sections, prefix: string, config: Config)
    requires CapturableConfig(config)
    ensures CaptureUnder(PutConfig(sections, prefix, config), prefix) == Over(CaptureUnder(sections, prefix), config)
  {
    hide CaptureUnder;
    hide PutConfig;
    var after := PutConfig(sections, prefix, config);
    var own := CaptureUnder(sections, prefix);
    var c, over := CaptureUnder(after, prefix), Over(own, config);
    forall s ensures (s in c <==> s in over) && (s in c ==> c[s] == over[s]) {
      CaptureAt(sections, prefix, s);
      CaptureAt(after, prefix, s);
      PutConfigAt(sections, prefix, config, prefix + s);
      assert (prefix + s)[|prefix|..] == s;
      var g := GroupOf(sections, prefix + s);
      assert GroupOf(after, prefix + s) == g + GroupOf(config, s);
      UnionEmpty(g, GroupOf(config, s));
    }
    assert c == over;
  }

  /** A written config is captured as written exactly when it covers what was captured before. */
  lemma PutIsCaptured(sections: Sections, prefix: string, config: Config)
    requires CapturableConfig(config)
    ensures var after := CaptureUnder(PutConfig(sections, prefix, config), prefix);
            after == config <==> Covers(config, CaptureUnder(sections, prefix))
  {
    PutShows(sections, prefix, config);
    OverIsConfig(CaptureUnder(sections, prefix), config);
  }

  lemma NoSepInApplets()
    ensures FirstSep("Applets") == 7
  {
    assert FirstSep("ts") == 2 && "ets"[1..] == "ts" && "lets"[1..] == "ets" && "plets"[1..] == "lets";
    assert "pplets"[1..] == "plets" && "Applets"[1..] == "pplets";
  }

  lemma NestedSplits(s: string)
    requires StartsWith(s, "Applets][")
    ensures Split(s) == ["Applets"] + Split(s[9..])
  {
    hide FirstSep;
    var rest := s[9..];
    assert s == "Applets" + SEP + rest;
    NoSepInApplets();
    FirstSepAfter("Applets", rest);
    assert s[..7] == "Applets";
  }

  lemma NestedByPath(path: seq<string>)
    requires path != [] && forall g <- path :: FirstSep(g) == |g|
    ensures StartsWith(Join(path), "Applets][") <==> |path| > 1 && path[0] == "Applets"
  {
    hide Split;
    hide FirstSep;
    var s := Join(path);
    SplitJoin(path);
    if StartsWith(s, "Applets][") { NestedSplits(s); }
    if |path| > 1 && path[0] == "Applets" {
      assert s == "Applets" + SEP + Join(path[1..]);
      assert s[..9] == "Applets][";
    }
  }

  /** In terms of group paths: a widget's capture holds exactly the non-empty groups below
      Containments / panel / Applets / widget, but none below a further Applets. */
  lemma CaptureByPath(sections: Sections, panelId: string, appletId: string, path: seq<string>)
    requires path != [] && forall g <- path :: FirstSep(g) == |g|
    ensures var c := CaptureConfig(sections, panelId, appletId);
            var name := Join(["Containments", panelId, "Applets", appletId] + path);
            && (Join(path) in c <==>
                  name in sections && sections[name] != map[] && !(|path| > 1 && path[0] == "Applets"))
            && (Join(path) in c ==> c[Join(path)] == sections[name])
  {
    hide CaptureUnder;
    hide AppletPrefix;
    var s := Join(path);
    SplitJoin(path);
    PathRejoins(panelId, appletId, s);
    CaptureAt(sections, AppletPrefix(panelId, appletId), s);
    NestedByPath(path);
  }

  /** Two files that agree under a prefix capture the same there. */
  lemma CaptureAgrees(a: Sections, b: Sections, prefix: string)
    requires forall s :: GroupOf(a, prefix + s) == GroupOf(b, prefix + s)
    ensures CaptureUnder(a, prefix) == CaptureUnder(b, prefix)
  {
    hide CaptureUnder;
    var c, e := CaptureUnder(a, prefix), CaptureUnder(b, prefix);
    forall s ensures (s in c <==> s in e) && (s in c ==> c[s] == e[s]) {
      CaptureAt(a, prefix, s);
      CaptureAt(b, prefix, s);
      assert GroupOf(a, prefix + s) == GroupOf(b, prefix + s);
    }
  }

  /** Writing one widget's config shows in no other widget, whatever the ids look like. */
  lemma PutElsewhere(sections: Sections, p: string, a: string, config: Config, q: string, b: string)
    requires IsId(p) && IsId(a) && IsId(q) && IsId(b) && (p != q || a != b)
    ensures CaptureConfig(PutConfig(sections, AppletPrefix(p, a), config), q, b) == CaptureConfig(sections, q, b)
  {
    hide PutConfig;
    hide CaptureUnder;
    var after, prefix := PutConfig(sections, AppletPrefix(p, a), config), AppletPrefix(q, b);
    forall s ensures GroupOf(after, prefix + s) == GroupOf(sections, prefix + s) {
      PutConfigAt(sections, AppletPrefix(p, a), config, prefix + s);
      if StartsWith(prefix + s, AppletPrefix(p, a)) { NoConfusion(prefix + s, p, a, q, b); }
    }
    CaptureAgrees(after, sections, prefix);
  }

  /** Before its turn a new widget shows its own config, afterwards the given one over it. */
  lemma {:induction false} PutWidgetsAt(sections: Sections, p: string, ids: seq<string>, widgets: seq<Widget>,
                                        id: string)
    requires |ids| == |widgets| && IsId(p) && IsId(id) && Distinct(ids) && forall i <- ids :: IsId(i)
    requires forall w <- widgets :: CapturableConfig(w.config)
    ensures var own, c := CaptureConfig(sections, p, id), CaptureConfig(PutWidgets(sections, p, ids, widgets), p, id);
            && (id !in ids ==> c == own)
            && (forall i :: 0 <= i < |ids| && ids[i] == id ==> c == Over(own, widgets[i].config))
    decreases |ids|
  {
    hide CaptureUnder;
    hide PutConfig;
    hide CapturableConfig;
    hide Over;
    if ids != [] {
      var n := |ids| - 1;
      var before := PutWidgets(sections, p, ids[..n], widgets[..n]);
      PutWidgetsAt(sections, p, ids[..n], widgets[..n], id);
      if ids[n] == id {
        assert id !in ids[..n];
        PutShows(before, AppletPrefix(p, id), widgets[n].config);
      } else {
        PutElsewhere(before, p, ids[n], widgets[n].config, p, id);
      }
    }
  }

  /** Nor does rebuilding one panel show in another one's widgets. */
  lemma {:induction false} PutWidgetsElsewhere(sections: Sections, p: string, ids: seq<string>, widgets: seq<Widget>,
                                               q: string, b: string)
    requires |ids| == |widgets| && IsId(p) && IsId(q) && IsId(b) && p != q && forall i <- ids :: IsId(i)
    ensures CaptureConfig(PutWidgets(sections, p, ids, widgets), q, b) == CaptureConfig(sections, q, b)
    decreases |ids|
  {
    hide CaptureUnder;
    hide PutConfig;
    if ids != [] {
      var n := |ids| - 1;
      PutWidgetsElsewhere(sections, p, ids[..n], widgets[..n], q, b);
      PutElsewhere(PutWidgets(sections, p, ids[..n], widgets[..n]), p, ids[n], widgets[n].config, q, b);
    }
  }

  /** The new widgets start with what they wrote themselves, the other panels' widgets stay as they were. */
  lemma RebuildCaptures(d: Desktop, screen: int, spec: Spec, b: Birth, q: string, id: string)
    requires BirthOk(d, |spec.widgets|, b) && IsId(q) && IsId(id)
    requires screen in d.panels ==> IsId(d.panels[screen].id)
    ensures var after := Rebuild(d, screen, spec, b).sections;
            && (q == b.panelId ==> CaptureConfig(after, q, id) == CaptureConfig(b.sections, q, id))
            && (q != b.panelId && (screen in d.panels ==> q != d.panels[screen].id)
                ==> CaptureConfig(after, q, id) == CaptureConfig(d.sections, q, id))
  {
    hide CaptureUnder;
    var after, prefix := Rebuild(d, screen, spec, b).sections, AppletPrefix(q, id);
    forall s ensures OfPanel(prefix + s, q) {
      OfApplet(prefix + s, q, id);
    }
    if q == b.panelId {
      forall s ensures GroupOf(after, prefix + s) == GroupOf(b.sections, prefix + s) {
      }
      CaptureAgrees(after, b.sections, prefix);
    }
    if q != b.panelId && (screen in d.panels ==> q != d.panels[screen].id) {
      forall s ensures GroupOf(after, prefix + s) == GroupOf(d.sections, prefix + s) {
        var name := prefix + s;
        if OfPanel(name, b.panelId) { SamePanel(name, q, b.panelId); }
        if screen in d.panels && OfPanel(name, d.panels[screen].id) { SamePanel(name, q, d.panels[screen].id); }
      }
      CaptureAgrees(after, d.sections, prefix);
    }
  }

  lemma {:induction false} TypesAt(ids: seq<string>, widgets: seq<Widget>, i: nat)
    requires |ids| == |widgets| && Distinct(ids) && i < |ids|
    ensures ids[i] in Types(ids, widgets) && Types(ids, widgets)[ids[i]] == widgets[i].kind
    decreases |ids|
  {
    var n := |ids| - 1;
    if i < n { TypesAt(ids[..n], widgets[..n], i); }
  }

  lemma OneRef(id: string, applets: map<string, string>)
    ensures Refs([id], applets) == if id in applets then [Ref(applets[id], id)] else []
  {
    assert [id][1..] == [];
  }

  /** The widgets shown are the ids of the order that have an applet, one by one. */
  lemma {:induction false} RefsConcat(a: seq<string>, b: seq<string>, applets: map<string, string>)
    ensures Refs(a + b, applets) == Refs(a, applets) + Refs(b, applets)
  {
    if a == [] {
      assert a + b == b;
    } else {
      Seqs.TailConcat(a, b);
      RefsConcat(a[1..], b, applets);
      Seqs.Assoc(if a[0] in applets then [Ref(applets[a[0]], a[0])] else [], Refs(a[1..], applets), Refs(b, applets));
    }
  }

  /** The new panel shows its widgets in the order given. */
  lemma {:induction false} RefsInOrder(ids: seq<string>, applets: map<string, string>)
    requires forall id <- ids :: id in applets
    ensures |Refs(ids, applets)| == |ids|
    ensures forall i :: 0 <= i < |ids| ==> Refs(ids, applets)[i] == Ref(applets[ids[i]], ids[i])
  {
    if ids != [] { RefsInOrder(ids[1..], applets); }
  }

  /** What a panel rebuilt from a spec shows: each widget's config over what it wrote itself. */
  function Shown(spec: Spec, b: Birth): Spec
    requires |b.ids| == |spec.widgets|
  {
    Spec(spec.geometry, seq(|spec.widgets|, i requires 0 <= i < |spec.widgets| =>
      Widget(spec.widgets[i].kind, Over(Own(b, i), spec.widgets[i].config))))
  }

  /** Whatever the new widgets wrote themselves is overwritten from the spec. */
  ghost predicate Overwritten(spec: Spec, b: Birth) {
    forall i :: 0 <= i < |b.ids| && i < |spec.widgets| ==> Covers(spec.widgets[i].config, Own(b, i))
  }

  lemma ShownIsSpec(spec: Spec, b: Birth)
    requires |b.ids| == |spec.widgets|
    ensures Shown(spec, b) == spec <==> Overwritten(spec, b)
  {
    hide Own;
    hide Over;
    hide Covers;
    var ws := Shown(spec, b).widgets;
    forall i | 0 <= i < |ws| ensures ws[i] == spec.widgets[i] <==> Covers(spec.widgets[i].config, Own(b, i)) {
      OverIsConfig(Own(b, i), spec.widgets[i].config);
    }
    if Overwritten(spec, b) { assert ws == spec.widgets; }
  }

  lemma RebuiltShows(d: Desktop, screen: int, spec: Spec, b: Birth)
    requires BirthOk(d, |spec.widgets|, b) && Capturable(spec)
    requires screen in d.panels ==> IsId(d.panels[screen].id)
    ensures Capture(Apply(d, screen, spec, b), screen) == Some(Shown(spec, b))
  {
    hide CaptureConfig;
    hide PutWidgets;
    hide CaptureWidgets;
    hide Types;
    hide Refs;
    hide CapturableConfig;
    hide Over;
    var born := Rebuild(d, screen, spec, b).sections;
    var after := PutWidgets(born, b.panelId, b.ids, spec.widgets);
    var applets := Types(b.ids, spec.widgets);
    forall i | 0 <= i < |b.ids| ensures b.ids[i] in applets && applets[b.ids[i]] == spec.widgets[i].kind {
      TypesAt(b.ids, spec.widgets, i);
    }
    RefsInOrder(b.ids, applets);
    var refs := Refs(b.ids, applets);
    var ws := CaptureWidgets(after, b.panelId, refs);
    CaptureWidgetsLength(after, b.panelId, refs);
    forall i | 0 <= i < |ws| ensures ws[i] == Shown(spec, b).widgets[i] {
      CaptureWidgetsAt(after, b.panelId, refs, i);
      RebuildCaptures(d, screen, spec, b, b.panelId, b.ids[i]);
      PutWidgetsAt(born, b.panelId, b.ids, spec.widgets, b.ids[i]);
    }
    assert ws == Shown(spec, b).widgets;
  }

  /** Capturing a panel that was just rebuilt from a capture gives that capture - same widgets
      in the same order, each with the same groups, keys and values - exactly when whatever the
      new widgets wrote themselves is overwritten. */
  lemma RebuiltIsCaptured(d: Desktop, screen: int, spec: Spec, b: Birth)
    requires BirthOk(d, |spec.widgets|, b) && Capturable(spec)
    requires screen in d.panels ==> IsId(d.panels[screen].id)
    ensures Capture(Apply(d, screen, spec, b), screen) == Some(spec) <==> Overwritten(spec, b)
  {
    hide Capture;
    hide Apply;
    RebuiltShows(d, screen, spec, b);
    ShownIsSpec(spec, b);
  }

  // ---------- ... read from the file ----------

  ghost predicate PlainSpec(spec: Spec) {
    forall w <- spec.widgets :: PlainSections(w.config)
  }

  lemma PutConfigPlain(sections: Sections, prefix: string, config: Config)
    requires PlainSections(sections) && PlainSections(config)
    ensures PlainSections(PutConfig(sections, prefix, config))
  {
    hide Plain;
    var after := PutConfig(sections, prefix, config);
    forall name <- after ensures PlainGroup(after[name]) {
      var g := GroupOf(sections, name);
      var c := if StartsWith(name, prefix) then GroupOf(config, name[|prefix|..]) else map[];
      assert PlainGroup(g) && PlainGroup(c) && after[name] == g + c;
    }
  }

  lemma {:induction false} PutWidgetsPlain(sections: Sections, p: string, ids: seq<string>, widgets: seq<Widget>)
    requires |ids| == |widgets| && PlainSections(sections) && forall w <- widgets :: PlainSections(w.config)
    ensures PlainSections(PutWidgets(sections, p, ids, widgets))
    decreases |ids|
  {
    hide PutConfig;
    hide PlainSections;
    if ids != [] {
      var n := |ids| - 1;
      PutWidgetsPlain(sections, p, ids[..n], widgets[..n]);
      PutConfigPlain(PutWidgets(sections, p, ids[..n], widgets[..n]), AppletPrefix(p, ids[n]), widgets[n].config);
    }
  }

  /** The round trip through the file: what stands after a rebuild can be written as a file, and
      parsing any file that says it and capturing the panel gives the spec back - exactly when
      whatever the new widgets wrote themselves is overwritten. */
  lemma FileRoundTrip(d: Desktop, screen: int, spec: Spec, b: Birth) returns (file: seq<Block>)
    requires BirthOk(d, |spec.widgets|, b) && Capturable(spec)
    requires screen in d.panels ==> IsId(d.panels[screen].id)
    requires PlainSections(d.sections) && PlainSections(b.sections) && PlainSpec(spec)
    ensures PlainBlocks(file) && Store(map[], file) == Apply(d, screen, spec, b).sections
    ensures var after := Apply(d, screen, spec, b);
            forall blocks | PlainBlocks(blocks) && Store(map[], blocks) == after.sections ::
              Capture(Desktop(after.panels, ReadFrom(START, Render(blocks)).sections), screen) == Some(spec)
              <==> Overwritten(spec, b)
  {
    hide Capture;
    hide PutWidgets;
    hide PlainGroup;
    hide Overwritten;
    var after := Apply(d, screen, spec, b);
    PutWidgetsPlain(Rebuild(d, screen, spec, b).sections, b.panelId, b.ids, spec.widgets);
    file := SectionsCanBeWritten(after.sections);
    forall blocks | PlainBlocks(blocks) && Store(map[], blocks) == after.sections
      ensures ReadFrom(START, Render(blocks)).sections == after.sections
    {
      FileReadsBack(START, blocks);
    }
    RebuiltIsCaptured(d, screen, spec, b);
    assert after == Desktop(after.panels, after.sections);
  }

  // ---------- the whole desktop ----------

  /** Panels have ids of their own, and everything is named by ids. */
  ghost predicate DesktopOk(d: Desktop) {
    && (forall s <- d.panels :: IsId(d.panels[s].id) && forall id <- d.panels[s].order :: IsId(id))
    && (forall s, t :: s in d.panels && t in d.panels && s != t ==> d.panels[s].id != d.panels[t].id)
  }

  lemma {:induction false} RefsAreIds(order: seq<string>, applets: map<string, string>)
    requires forall id <- order :: IsId(id)
    ensures forall r <- Refs(order, applets) :: IsId(r.id)
  {
    if order != [] { RefsAreIds(order[1..], applets); }
  }

  lemma {:induction false} CaptureWidgetsAgree(a: Sections, b: Sections, panelId: string, refs: seq<Ref>)
    requires forall r <- refs :: CaptureConfig(a, panelId, r.id) == CaptureConfig(b, panelId, r.id)
    ensures CaptureWidgets(a, panelId, refs) == CaptureWidgets(b, panelId, refs)
  {
    if refs != [] { CaptureWidgetsAgree(a, b, panelId, refs[1..]); }
  }

  /** Rebuilding one screen's panel changes no other screen's capture. */
  lemma OthersAreKept(d: Desktop, screen: int, spec: Spec, b: Birth, other: int)
    requires DesktopOk(d) && BirthOk(d, |spec.widgets|, b) && other != screen
    ensures Capture(Apply(d, screen, spec, b), other) == Capture(d, other)
  {
    hide CaptureConfig;
    hide PutWidgets;
    hide CaptureWidgets;
    hide Refs;
    if other in d.panels {
      var p := d.panels[other];
      var refs := Refs(p.order, p.applets);
      var born := Rebuild(d, screen, spec, b).sections;
      var after := PutWidgets(born, b.panelId, b.ids, spec.widgets);
      RefsAreIds(p.order, p.applets);
      forall r <- refs ensures CaptureConfig(after, p.id, r.id) == CaptureConfig(d.sections, p.id, r.id) {
        RebuildCaptures(d, screen, spec, b, p.id, r.id);
        PutWidgetsElsewhere(born, b.panelId, b.ids, spec.widgets, p.id, r.id);
      }
      CaptureWidgetsAgree(after, d.sections, p.id, refs);
    }
  }

  lemma {:induction false} PutWidgetsNames(sections: Sections, p: string, ids: seq<string>, widgets: seq<Widget>,
                                           name: string)
    requires |ids| == |widgets| && name in PutWidgets(sections, p, ids, widgets)
    ensures name in sections || OfPanel(name, p)
    decreases |ids|
  {
    hide PutConfig;
    hide OfPanel;
    if ids != [] {
      var n := |ids| - 1;
      var before := PutWidgets(sections, p, ids[..n], widgets[..n]);
      PutConfigAt(before, AppletPrefix(p, ids[n]), widgets[n].config, name);
      if StartsWith(name, AppletPrefix(p, ids[n])) {
        OfApplet(name, p, ids[n]);
      } else {
        PutWidgetsNames(sections, p, ids[..n], widgets[..n], name);
      }
    }
  }

  /** A rebuild keeps the ids apart and leaves the other births as fresh as they were. */
  lemma ApplyKeepsOk(d: Desktop, screen: int, spec: Spec, b: Birth)
    requires DesktopOk(d) && BirthOk(d, |spec.widgets|, b)
    ensures DesktopOk(Apply(d, screen, spec, b))
  {
    hide PutWidgets;
    hide Types;
  }

  lemma BirthStaysOk(d: Desktop, screen: int, spec: Spec, b: Birth, later: Birth)
    requires BirthOk(d, |spec.widgets|, b) && BirthOk(d, |spec.widgets|, later) && b.panelId != later.panelId
    ensures BirthOk(Apply(d, screen, spec, b), |spec.widgets|, later)
  {
    hide PutWidgets;
    hide Types;
    hide CaptureConfig;
    hide OfPanel;
    hide Distinct;
    var born, after := Rebuild(d, screen, spec, b).sections, Apply(d, screen, spec, b).sections;
    forall name <- after ensures !OfPanel(name, later.panelId) {
      PutWidgetsNames(born, b.panelId, b.ids, spec.widgets, name);
      if OfPanel(name, b.panelId) && OfPanel(name, later.panelId) { SamePanel(name, b.panelId, later.panelId); }
    }
  }

  lemma {:induction false} PutWidgetsOutside(sections: Sections, p: string, ids: seq<string>, widgets: seq<Widget>,
                                             name: string)
    requires |ids| == |widgets| && !OfPanel(name, p)
    ensures name in PutWidgets(sections, p, ids, widgets) <==> name in sections
    ensures GroupOf(PutWidgets(sections, p, ids, widgets), name) == GroupOf(sections, name)
    decreases |ids|
  {
    hide PutConfig;
    hide OfPanel;
    hide GroupOf;
    if ids != [] {
      var n := |ids| - 1;
      PutWidgetsOutside(sections, p, ids[..n], widgets[..n], name);
      PutConfigAt(PutWidgets(sections, p, ids[..n], widgets[..n]), AppletPrefix(p, ids[n]), widgets[n].config, name);
      if StartsWith(name, AppletPrefix(p, ids[n])) { OfApplet(name, p, ids[n]); }
    }
  }

  /** A rebuild removes the old panel's groups, keeps everybody else's, and puts a panel with the
      new id in the old one's place. */
  lemma RebuildReplaces(d: Desktop, screen: int, spec: Spec, b: Birth, name: string)
    requires BirthOk(d, |spec.widgets|, b) && screen in d.panels && !OfPanel(name, b.panelId)
    ensures var after := Apply(d, screen, spec, b);
            && after.panels.Keys == d.panels.Keys && after.panels[screen].id == b.panelId
            && after.panels[screen].order == b.ids && after.panels[screen].geometry == spec.geometry
            && (name in after.sections <==> name in d.sections && !OfPanel(name, d.panels[screen].id))
            && (name in after.sections ==> after.sections[name] == d.sections[name])
  {
    hide PutWidgets;
    hide OfPanel;
    var born := Rebuild(d, screen, spec, b).sections;
    PutWidgetsOutside(born, b.panelId, b.ids, spec.widgets, name);
    assert name !in b.sections;
  }

  // ---------- one run of the mirror ----------

  /** The state file: each screen's last-seen spec. */
  type Record = map<int, Spec>

  datatype World = World(desktop: Desktop, record: Option<Record>)

  function Current(d: Desktop): Record { map s | s in d.panels :: CapturePanel(d.sections, d.panels[s]) }

  /** Recorded screens that look different now. */
  function Changed(record: Record, current: Record): set<int> {
    set s | s in current && s in record && record[s] != current[s]
  }

  /** Whom everybody follows: on the first run the primary screen, later the lowest changed one. */
  function Canonical(record: Option<Record>, current: Record, primary: int): Option<int>
    requires current.Keys != {}
  {
    match record
    case None => Some(if primary in current then primary else Lowest(current.Keys))
    case Some(r) => if Changed(r, current) == {} then None else Some(Lowest(Changed(r, current)))
  }

  lemma KnownCanonical(record: Option<Record>, current: Record, primary: int)
    requires current.Keys != {}
    ensures var who := Canonical(record, current, primary); who.Some? ==> who.value in current
  {
  }

  function Stale(current: Record, canonical: int): set<int>
    requires canonical in current
  {
    set s | s in current && s != canonical && current[s] != current[canonical]
  }

  ghost predicate BirthsOk(d: Desktop, todo: set<int>, n: nat, births: map<int, Birth>) {
    && (forall s <- todo :: s in births && BirthOk(d, n, births[s]))
    && (forall s, t :: s in todo && t in todo && s != t ==> births[s].panelId != births[t].panelId)
  }

  /** Rebuild these screens' panels, lowest screen first. */
  function ApplyAll(d: Desktop, todo: set<int>, spec: Spec, births: map<int, Birth>): Desktop
    requires forall s <- todo :: s in births && |births[s].ids| == |spec.widgets|
    decreases |todo|
  {
    if todo == {} then d
    else
      var s := Lowest(todo);
      ApplyAll(Apply(d, s, spec, births[s]), todo - {s}, spec, births)
  }

  /** What Plasma hands out in this run is fit for the rebuilds the run will make. */
  ghost predicate PlasmaOk(w: World, primary: int, births: map<int, Birth>) {
    var current := Current(w.desktop);
    current.Keys != {} ==>
      match Canonical(w.record, current, primary)
      case None => true
      case Some(c) => BirthsOk(w.desktop, Stale(current, c), |current[c].widgets|, births)
  }

  function Everywhere(current: Record, c: int): Record
    requires c in current
  {
    map s | s in current :: current[c]
  }

  function Mirror(w: World, primary: int, births: map<int, Birth>): World
    requires PlasmaOk(w, primary, births)
  {
    var current := Current(w.desktop);
    if |current.Keys| < 2 then w
    else
      match Canonical(w.record, current, primary)
      case None => World(w.desktop, Some(current))
      case Some(c) =>
        World(ApplyAll(w.desktop, Stale(current, c), current[c], births), Some(Everywhere(current, c)))
  }

  lemma BirthsFit(d: Desktop, todo: set<int>, n: nat, births: map<int, Birth>)
    requires BirthsOk(d, todo, n, births)
    ensures forall s <- todo :: s in births && |births[s].ids| == n
  {
  }

  lemma ApplyPanels(d: Desktop, screen: int, spec: Spec, b: Birth)
    requires |b.ids| == |spec.widgets| && screen in d.panels
    ensures var next := Apply(d, screen, spec, b);
            next.panels.Keys == d.panels.Keys && forall s <- d.panels :: s != screen ==> next.panels[s] == d.panels[s]
  {
  }

  lemma PanelIsId(d: Desktop, screen: int)
    requires DesktopOk(d) && screen in d.panels
    ensures IsId(d.panels[screen].id)
  {
  }

  lemma {:induction false} ApplyAllCaptures(d: Desktop, todo: set<int>, spec: Spec, births: map<int, Birth>)
    requires DesktopOk(d) && Capturable(spec) && BirthsOk(d, todo, |spec.widgets|, births) && todo <= d.panels.Keys
    ensures var r := ApplyAll(d, todo, spec, births);
            && DesktopOk(r) && r.panels.Keys == d.panels.Keys
            && (forall s <- d.panels ::
                  Capture(r, s) == if s in todo then Some(Shown(spec, births[s])) else Capture(d, s))
            && (forall s <- d.panels :: s !in todo ==> r.panels[s] == d.panels[s])
    decreases |todo|
  {
    hide Apply;
    hide Capture;
    hide Capturable;
    hide DesktopOk;
    hide BirthOk;
    hide Shown;
    BirthsFit(d, todo, |spec.widgets|, births);
    if todo != {} {
      var m := Lowest(todo);
      var b := births[m];
      var next, rest := Apply(d, m, spec, b), todo - {m};
      ApplyPanels(d, m, spec, b);
      ApplyKeepsOk(d, m, spec, b);
      forall s <- rest ensures BirthOk(next, |spec.widgets|, births[s]) {
        BirthStaysOk(d, m, spec, b, births[s]);
      }
      PanelIsId(d, m);
      RebuiltShows(d, m, spec, b);
      forall s <- d.panels | s != m ensures Capture(next, s) == Capture(d, s) {
        OthersAreKept(d, m, spec, b, s);
      }
      ApplyAllCaptures(next, rest, spec, births);
    }
  }

  lemma CurrentIsCapture(d: Desktop)
    ensures Current(d).Keys == d.panels.Keys
    ensures forall s <- d.panels :: Capture(d, s) == Some(Current(d)[s]) && Capturable(Current(d)[s])
  {
    hide CapturePanel;
    forall s <- d.panels ensures Capturable(Current(d)[s]) {
      CapturesAreCapturable(d.sections, d.panels[s]);
    }
  }

  /** What following `c` leaves on the screens and in the record. */
  ghost predicate Followed(current: Record, c: int, births: map<int, Birth>, shown: Record, record: Option<Record>) {
    && c in current && shown.Keys == current.Keys && record == Some(Everywhere(current, c))
    && (forall s <- Stale(current, c) :: s in births && |births[s].ids| == |current[c].widgets|)
    && (forall s <- current :: shown[s] == if s in Stale(current, c) then Shown(current[c], births[s]) else current[c])
  }

  /** Following one screen: who had its capture already is not rebuilt, everybody else shows it
      over what the new widgets wrote. */
  lemma FollowAll(d: Desktop, c: int, births: map<int, Birth>)
    requires DesktopOk(d) && c in d.panels
    requires BirthsOk(d, Stale(Current(d), c), |Current(d)[c].widgets|, births)
    ensures forall s <- Stale(Current(d), c) :: s in births && |births[s].ids| == |Current(d)[c].widgets|
    ensures var stale, current := Stale(Current(d), c), Current(d);
            var after := ApplyAll(d, stale, current[c], births);
            && DesktopOk(after) && after.panels.Keys == d.panels.Keys
            && Followed(current, c, births, Current(after), Some(Everywhere(current, c)))
            && (forall s <- d.panels :: s !in stale ==> after.panels[s] == d.panels[s])
  {
    hide Capture;
    hide Current;
    hide Capturable;
    hide DesktopOk;
    hide BirthOk;
    hide ApplyAll;
    hide Shown;
    CurrentIsCapture(d);
    var spec, stale := Current(d)[c], Stale(Current(d), c);
    BirthsFit(d, stale, |spec.widgets|, births);
    var after := ApplyAll(d, stale, spec, births);
    ApplyAllCaptures(d, stale, spec, births);
    CurrentIsCapture(after);
    forall s <- d.panels ensures Current(after)[s] == if s in stale then Shown(spec, births[s]) else spec {
      assert Capture(after, s) == if s in stale then Some(Shown(spec, births[s])) else Capture(d, s);
    }
  }

  /** The screens a run rebuilds. */
  function RebuiltBy(w: World, primary: int): set<int> {
    var current := Current(w.desktop);
    if |current.Keys| < 2 then {}
    else
      match Canonical(w.record, current, primary)
      case None => {}
      case Some(c) => Stale(current, c)
  }

  /** ... and whatever their new widgets wrote themselves is overwritten. */
  ghost predicate AllOverwritten(w: World, primary: int, births: map<int, Birth>) {
    var current := Current(w.desktop);
    current.Keys != {} ==>
      match Canonical(w.record, current, primary)
      case None => true
      case Some(c) => forall s <- Stale(current, c) :: s in births && Overwritten(current[c], births[s])
  }

  lemma FollowedAt(current: Record, c: int, births: map<int, Birth>, shown: Record, record: Option<Record>, s: int)
    requires Followed(current, c, births, shown, record) && s in current
    ensures shown[s] == current[c] <==> (s in Stale(current, c) ==> s in births && Overwritten(current[c], births[s]))
  {
    hide Shown;
    hide Overwritten;
    if s in Stale(current, c) { ShownIsSpec(current[c], births[s]); }
  }

  lemma FollowedRecord(current: Record, c: int, births: map<int, Birth>, shown: Record, record: Option<Record>)
    requires Followed(current, c, births, shown, record)
    ensures record == Some(shown) <==>
              forall s <- Stale(current, c) :: s in births && Overwritten(current[c], births[s])
  {
    hide Shown;
    hide Overwritten;
    var all := record.value;
    forall s <- current
      ensures shown[s] == all[s] <==> (s in Stale(current, c) ==> s in births && Overwritten(current[c], births[s]))
    {
      FollowedAt(current, c, births, shown, record, s);
    }
    assert all.Keys == shown.Keys;
    assert all == shown <==> forall s <- current :: shown[s] == all[s];
  }

  lemma MirrorFollows(w: World, primary: int, births: map<int, Birth>)
    requires DesktopOk(w.desktop) && PlasmaOk(w, primary, births) && |w.desktop.panels.Keys| >= 2
    ensures var w' := Mirror(w, primary, births);
            var current, shown := Current(w.desktop), Current(w'.desktop);
            && current.Keys == w.desktop.panels.Keys == w'.desktop.panels.Keys == shown.Keys
            && DesktopOk(w'.desktop)
            && match Canonical(w.record, current, primary)
               case None => w'.desktop == w.desktop && w'.record == Some(current)
               case Some(c) =>
                 && Followed(current, c, births, shown, w'.record)
                 && (forall s <- current :: s !in Stale(current, c) ==> w'.desktop.panels[s] == w.desktop.panels[s])
  {
    hide Current;
    hide DesktopOk;
    hide BirthsOk;
    hide ApplyAll;
    hide Stale;
    hide Followed;
    hide Everywhere;
    hide Canonical;
    var d, current := w.desktop, Current(w.desktop);
    CurrentIsCapture(d);
    KnownCanonical(w.record, current, primary);
    CurrentIsCapture(Mirror(w, primary, births).desktop);
    var who := Canonical(w.record, current, primary);
    if who.Some? { FollowAll(d, who.value, births); }
  }

  /** What a run with two screens or more leaves: where there was somebody to follow, the record
      says that everybody has their panel, and nobody up to date was rebuilt; where there was
      not, nothing was touched. Each screen shows the followed panel, and so the record is what
      is on the screens, exactly when whatever new widgets wrote themselves was overwritten. */
  lemma MirrorConverges(w: World, primary: int, births: map<int, Birth>)
    requires DesktopOk(w.desktop) && PlasmaOk(w, primary, births) && |w.desktop.panels.Keys| >= 2
    ensures var w' := Mirror(w, primary, births);
            var current, shown := Current(w.desktop), Current(w'.desktop);
            && current.Keys == w.desktop.panels.Keys == w'.desktop.panels.Keys == shown.Keys
            && DesktopOk(w'.desktop)
            && (w'.record == Some(shown) <==> AllOverwritten(w, primary, births))
            && match Canonical(w.record, current, primary)
               case None => w'.desktop == w.desktop && w'.record == Some(current)
               case Some(c) =>
                 && w'.record == Some(Everywhere(current, c))
                 && (forall s <- current :: shown[s] == current[c] <==>
                       (s in Stale(current, c) ==> s in births && Overwritten(current[c], births[s])))
                 && (forall s <- current :: s !in Stale(current, c) ==> w'.desktop.panels[s] == w.desktop.panels[s])
  {
    hide Mirror;
    hide Current;
    hide DesktopOk;
    hide PlasmaOk;
    hide Stale;
    hide Overwritten;
    MirrorFollows(w, primary, births);
    var w' := Mirror(w, primary, births);
    var current, shown := Current(w.desktop), Current(w'.desktop);
    assert current.Keys != {};
    var who := Canonical(w.record, current, primary);
    if who.Some? {
      FollowedRecord(current, who.value, births, shown, w'.record);
      forall s <- current ensures shown[s] == current[who.value] <==>
          (s in Stale(current, who.value) ==> s in births && Overwritten(current[who.value], births[s])) {
        FollowedAt(current, who.value, births, shown, w'.record, s);
      }
    }
  }

  lemma ChangedNone(record: Record, shown: Record)
    requires record.Keys == shown.Keys
    ensures Changed(record, shown) == {} <==> record == shown
  {
    if Changed(record, shown) == {} {
      forall s <- record ensures record[s] == shown[s] {
        assert s !in Changed(record, shown);
      }
    }
  }

  /** Following `c` with something not overwritten: the next run sees a rebuilt screen as the
      edited one and finds `c` out of date. */
  lemma SelfTriggered(current: Record, c: int, births: map<int, Birth>, shown: Record, record: Option<Record>,
                      primary: int)
    requires Followed(current, c, births, shown, record) && record != Some(shown)
    ensures match Canonical(record, shown, primary)
            case None => false
            case Some(x) => x in Stale(current, c) && c in Stale(shown, x)
  {
    hide Shown;
    var all := record.value;
    assert all.Keys == shown.Keys;
    ChangedNone(all, shown);
    var x := Lowest(Changed(all, shown));
    assert shown[x] != current[c] && shown[c] == current[c];
  }

  /** A run straight after a run rebuilds nothing, whatever primary screen it is told, exactly
      when the first run's new widgets wrote nothing that was not overwritten: then it changes
      nothing at all. Otherwise it takes a screen it rebuilt itself for an edited one, and
      rebuilds the panel everybody was following. */
  lemma MirrorSettles(w: World, primary: int, births: map<int, Birth>, primary': int, births': map<int, Birth>)
    requires DesktopOk(w.desktop) && PlasmaOk(w, primary, births)
    ensures |w.desktop.panels.Keys| < 2 ==> Mirror(w, primary, births) == w
    ensures var w' := Mirror(w, primary, births);
            var current, shown := Current(w.desktop), Current(w'.desktop);
            |w.desktop.panels.Keys| >= 2 ==>
              && shown.Keys == current.Keys
              && (RebuiltBy(w', primary') == {} <==> AllOverwritten(w, primary, births))
              && if AllOverwritten(w, primary, births)
                 then PlasmaOk(w', primary', births') && Mirror(w', primary', births') == w'
                 else
                   && Canonical(w.record, current, primary).Some? && Canonical(w'.record, shown, primary').Some?
                   && Canonical(w'.record, shown, primary').value in RebuiltBy(w, primary)
                   && Canonical(w.record, current, primary).value in RebuiltBy(w', primary')
  {
    hide Current;
    hide ApplyAll;
    hide DesktopOk;
    hide BirthsOk;
    hide AllOverwritten;
    hide Followed;
    CurrentIsCapture(w.desktop);
    if |w.desktop.panels.Keys| >= 2 {
      MirrorConverges(w, primary, births);
      MirrorFollows(w, primary, births);
      var w' := Mirror(w, primary, births);
      var current, shown := Current(w.desktop), Current(w'.desktop);
      if w'.record == Some(shown) {
        assert Changed(w'.record.value, shown) == {};
      } else {
        SelfTriggered(current, Canonical(w.record, current, primary).value, births, shown, w'.record, primary');
      }
    }
  }

  lemma NothingCaptured(prefix: string)
    ensures CaptureUnder(map[], prefix) == map[]
  {
  }

  lemma OneWidgetCaptured(p: Panel, id: string, kind: string)
    requires p.order == [id] && p.applets == map[id := kind]
    ensures CapturePanel(map[], p) == Spec(p.geometry, [Widget(kind, map[])])
  {
    assert p.order[1..] == [];
    assert Refs(p.order, p.applets) == [Ref(kind, id)];
    CaptureWidgetsLength(map[], p.id, [Ref(kind, id)]);
    CaptureWidgetsAt(map[], p.id, [Ref(kind, id)], 0);
    NothingCaptured(AppletPrefix(p.id, id));
  }

  /** A new widget that writes one key. */
  lemma OneKeyBirth(panelId: string, id: string) returns (b: Birth)
    requires IsId(panelId) && IsId(id)
    ensures b.panelId == panelId && b.ids == [id] && forall name <- b.sections :: OfPanel(name, panelId)
    ensures !Covers(map[], Own(b, 0))
  {
    hide CaptureUnder;
    hide AppletPrefix;
    hide OfPanel;
    var name, kv := AppletPrefix(panelId, id) + "General", map["key" := "value"];
    b := Birth(panelId, [id], map[name := kv]);
    OfApplet(name, panelId, id);
    CaptureAt(b.sections, AppletPrefix(panelId, id), "General");
    assert "key" in kv && Kept("General", kv);
    assert "General" in Own(b, 0);
  }

  /** It does happen: two screens, one widget each, and a new widget that writes one key. */
  lemma ExtraKeyRetriggers() returns (w: World, births: map<int, Birth>)
    ensures DesktopOk(w.desktop) && PlasmaOk(w, 0, births) && w.desktop.panels.Keys == {0, 1}
    ensures RebuiltBy(w, 0) == {1} && RebuiltBy(Mirror(w, 0, births), 0) == {0}
  {
    hide CapturePanel;
    hide Mirror;
    hide Own;
    hide Covers;
    hide OfPanel;
    var left, right := Panel("1", ["2"], map["2" := "tray"], "left"), Panel("3", ["4"], map["4" := "tray"], "right");
    w := World(Desktop(map[0 := left, 1 := right], map[]), None);
    assert w.desktop.panels.Keys == {0, 1};
    var current := Current(w.desktop);
    OneWidgetCaptured(left, "2", "tray");
    OneWidgetCaptured(right, "4", "tray");
    assert Stale(current, 0) == {1};
    var b := OneKeyBirth("5", "6");
    births := map[1 := b];
    assert current[0].widgets[0].config == map[] && !Overwritten(current[0], b);
    MirrorSettles(w, 0, births, 0, map[]);
    var w' := Mirror(w, 0, births);
    var x := Canonical(w'.record, Current(w'.desktop), 0).value;
    assert x == 1 && RebuiltBy(w', 0) == Stale(Current(w'.desktop), 1);
  }

  /** The second birth writes no groups or keys that the first one did not. */
  ghost predicate Alike(first: Birth, second: Birth) {
    && |first.ids| == |second.ids|
    && forall i :: 0 <= i < |first.ids| ==> Covers(Own(first, i), Own(second, i))
  }

  lemma OverKeeps(own: Config, config: Config)
    ensures Covers(Over(own, config), own)
  {
  }

  ghost predicate AllAlike(first: set<int>, births: map<int, Birth>, second: set<int>, births': map<int, Birth>) {
    forall s, t :: s in first && t in second ==> s in births && t in births' && Alike(births[s], births'[t])
  }

  lemma ShownCoversAlike(spec: Spec, first: Birth, second: Birth)
    requires |first.ids| == |spec.widgets| && Alike(first, second)
    ensures Overwritten(Shown(spec, first), second)
  {
    hide Own;
    forall i | 0 <= i < |second.ids|
      ensures Covers(Over(Own(first, i), spec.widgets[i].config), Own(second, i))
    {
      OverKeeps(Own(first, i), spec.widgets[i].config);
    }
  }

  lemma SecondIsOverwritten(w: World, primary: int, births: map<int, Birth>, primary': int, births': map<int, Birth>)
    requires DesktopOk(w.desktop) && PlasmaOk(w, primary, births) && |w.desktop.panels.Keys| >= 2
    requires var w' := Mirror(w, primary, births);
             && PlasmaOk(w', primary', births')
             && AllAlike(RebuiltBy(w, primary), births, RebuiltBy(w', primary'), births')
    ensures AllOverwritten(Mirror(w, primary, births), primary', births')
  {
    hide Mirror;
    hide Current;
    hide DesktopOk;
    hide BirthOk;
    hide Overwritten;
    hide Shown;
    hide Alike;
    MirrorFollows(w, primary, births);
    var w' := Mirror(w, primary, births);
    var current, shown := Current(w.desktop), Current(w'.desktop);
    var next := Canonical(w'.record, shown, primary');
    if next.Some? && Canonical(w.record, current, primary).Some? {
      var c, x := Canonical(w.record, current, primary).value, next.value;
      assert shown[x] != current[c] && x in RebuiltBy(w, primary);
      BirthsFit(w.desktop, Stale(current, c), |current[c].widgets|, births);
      forall t <- Stale(shown, x) ensures Overwritten(shown[x], births'[t]) {
        assert t in RebuiltBy(w', primary');
        ShownCoversAlike(current[c], births[x], births'[t]);
      }
    }
  }

  /** The loop ends by itself: if widgets write the same groups and keys whenever they are
      created, a second run in a row leaves nothing for a third. */
  lemma SecondRunSettles(w: World, primary: int, births: map<int, Birth>, primary': int, births': map<int, Birth>,
                         primary'': int)
    requires DesktopOk(w.desktop) && PlasmaOk(w, primary, births) && |w.desktop.panels.Keys| >= 2
    requires var w' := Mirror(w, primary, births);
             && PlasmaOk(w', primary', births')
             && AllAlike(RebuiltBy(w, primary), births, RebuiltBy(w', primary'), births')
    ensures var w' := Mirror(w, primary, births);
            DesktopOk(w'.desktop) && RebuiltBy(Mirror(w', primary', births'), primary'') == {}
  {
    hide Mirror;
    hide Current;
    MirrorConverges(w, primary, births);
    var w' := Mirror(w, primary, births);
    SecondIsOverwritten(w, primary, births, primary', births');
    MirrorSettles(w', primary', births', primary'', map[]);
  }

  ghost predicate Uniform(shown: Record) {
    forall s, t :: s in shown && t in shown ==> shown[s] == shown[t]
  }

  /** All screens show the same panel. */
  ghost predicate Agree(d: Desktop) { Uniform(Current(d)) }

  lemma FollowedAgree(current: Record, c: int, births: map<int, Birth>, shown: Record, record: Option<Record>)
    requires Followed(current, c, births, shown, record)
    ensures record == Some(shown) <==> Uniform(shown)
    ensures Uniform(current) ==> record == Some(shown)
  {
    hide Shown;
    var all := record.value;
    assert all.Keys == shown.Keys && shown[c] == current[c];
    if all == shown {
      forall s <- shown ensures shown[s] == current[c] {
        assert shown[s] == all[s];
      }
    }
    forall s <- shown ensures Uniform(shown) || Uniform(current) ==> shown[s] == all[s] {
    }
  }

  /** Exactly when a run ends with all screens alike: whatever the new widgets wrote themselves
      is overwritten, and it is a first run, or a screen the record knows was edited, or they
      were alike already. A screen that is new to the record and different is not brought into
      line by itself. */
  lemma AgreeIff(w: World, primary: int, births: map<int, Birth>)
    requires DesktopOk(w.desktop) && PlasmaOk(w, primary, births) && |w.desktop.panels.Keys| >= 2
    ensures Agree(Mirror(w, primary, births).desktop) <==>
              && AllOverwritten(w, primary, births)
              && (w.record.None? || Changed(w.record.value, Current(w.desktop)) != {} || Agree(w.desktop))
  {
    hide Current;
    hide Mirror;
    hide Changed;
    hide DesktopOk;
    hide PlasmaOk;
    hide AllOverwritten;
    hide Followed;
    MirrorConverges(w, primary, births);
    MirrorFollows(w, primary, births);
    var w' := Mirror(w, primary, births);
    var current, shown := Current(w.desktop), Current(w'.desktop);
    assert current.Keys != {};
    var who := Canonical(w.record, current, primary);
    if who.Some? { FollowedAgree(current, who.value, births, shown, w'.record); }
  }

  /** What a run leaves that follows screen `c`: everybody is recorded with its panel, everybody
      with a different one is rebuilt from it, and shows it exactly when what the new widgets
      wrote themselves is overwritten; nobody else is touched. */
  ghost predicate EverybodyHas(w: World, births: map<int, Birth>, c: int, w': World) {
    var current, shown := Current(w.desktop), Current(w'.desktop);
    && c in current && shown.Keys == current.Keys
    && w'.record.Some? && w'.record.value.Keys == current.Keys
    && (forall s <- current :: w'.record.value[s] == current[c])
    && (forall s <- current ::
          if current[s] == current[c] then shown[s] == current[c] && w'.desktop.panels[s] == w.desktop.panels[s]
          else s in births && (shown[s] == current[c] <==> Overwritten(current[c], births[s])))
  }

  lemma FollowedIsHad(w: World, births: map<int, Birth>, c: int, w': World)
    requires Followed(Current(w.desktop), c, births, Current(w'.desktop), w'.record)
    requires w.desktop.panels.Keys == w'.desktop.panels.Keys == Current(w.desktop).Keys
    requires forall s <- w.desktop.panels ::
               s !in Stale(Current(w.desktop), c) ==> w'.desktop.panels[s] == w.desktop.panels[s]
    ensures EverybodyHas(w, births, c, w')
  {
    hide Current;
    hide Shown;
    hide Overwritten;
    var current, shown := Current(w.desktop), Current(w'.desktop);
    forall s <- current ensures shown[s] == current[c] <==>
        (s in Stale(current, c) ==> s in births && Overwritten(current[c], births[s])) {
      FollowedAt(current, c, births, shown, w'.record, s);
    }
  }

  lemma CanonicalIsFollowed(w: World, primary: int, births: map<int, Birth>)
    requires DesktopOk(w.desktop) && PlasmaOk(w, primary, births) && |w.desktop.panels.Keys| >= 2
    ensures Current(w.desktop).Keys == w.desktop.panels.Keys != {}
    ensures var who := Canonical(w.record, Current(w.desktop), primary);
            if who.Some? then EverybodyHas(w, births, who.value, Mirror(w, primary, births))
            else Mirror(w, primary, births) == World(w.desktop, Some(Current(w.desktop)))
  {
    hide Mirror;
    hide Current;
    hide DesktopOk;
    hide PlasmaOk;
    hide Canonical;
    hide Followed;
    hide EverybodyHas;
    hide Stale;
    MirrorFollows(w, primary, births);
    assert w.desktop.panels.Keys != {};
    var who := Canonical(w.record, Current(w.desktop), primary);
    if who.Some? { FollowedIsHad(w, births, who.value, Mirror(w, primary, births)); }
  }

  /** Without a record everybody follows the primary screen if it has a panel, else the lowest. */
  lemma FirstRunFollowsPrimary(w: World, primary: int, births: map<int, Birth>, seed: int)
    requires DesktopOk(w.desktop) && PlasmaOk(w, primary, births) && |w.desktop.panels.Keys| >= 2
    requires w.record.None? && seed in w.desktop.panels
    requires if primary in w.desktop.panels then seed == primary else forall s <- w.desktop.panels :: seed <= s
    ensures EverybodyHas(w, births, seed, Mirror(w, primary, births))
  {
    hide Mirror;
    hide Current;
    hide DesktopOk;
    hide PlasmaOk;
    hide EverybodyHas;
    CanonicalIsFollowed(w, primary, births);
  }

  /** With a record everybody follows the lowest screen that differs from it - with a single edit,
      the edited one. */
  lemma EditWins(w: World, primary: int, births: map<int, Birth>, edited: int)
    requires DesktopOk(w.desktop) && PlasmaOk(w, primary, births) && |w.desktop.panels.Keys| >= 2
    requires w.record.Some? && edited in w.desktop.panels && edited in w.record.value
    requires w.record.value[edited] != Current(w.desktop)[edited]
    requires forall s <- w.desktop.panels ::
               s in w.record.value && w.record.value[s] != Current(w.desktop)[s] ==> edited <= s
    ensures EverybodyHas(w, births, edited, Mirror(w, primary, births))
  {
    hide Mirror;
    hide CapturePanel;
    hide DesktopOk;
    hide PlasmaOk;
    hide EverybodyHas;
    CanonicalIsFollowed(w, primary, births);
    var changed := Changed(w.record.value, Current(w.desktop));
    assert edited in changed;
    assert Lowest(changed) == edited;
  }

  /** With a record and nobody different from it, nothing is touched and new screens are recorded. */
  lemma QuietRunRecords(w: World, primary: int, births: map<int, Birth>)
    requires DesktopOk(w.desktop) && PlasmaOk(w, primary, births) && |w.desktop.panels.Keys| >= 2
    requires w.record.Some?
    requires forall s <- w.desktop.panels :: s in w.record.value ==> w.record.value[s] == Current(w.desktop)[s]
    ensures Mirror(w, primary, births) == World(w.desktop, Some(Current(w.desktop)))
  {
    hide Mirror;
    hide Current;
    hide DesktopOk;
    hide PlasmaOk;
    hide EverybodyHas;
    CanonicalIsFollowed(w, primary, births);
    var changed := Changed(w.record.value, Current(w.desktop));
    assert forall s :: s !in changed;
  }

  // ---------- the calls themselves ----------

  method CaptureAppletConfig(sections: Sections, panelId: string, appletId: string) returns (captured: Config)
    ensures captured == CaptureConfig(sections, panelId, appletId)
  {
    var prefix := AppletPrefix(panelId, appletId);
    captured := map[];
    var todo := sections.Keys;
    while todo != {}
      invariant todo <= sections.Keys
      invariant forall s :: s in captured <==>
        prefix + s in sections && prefix + s !in todo && Kept(s, sections[prefix + s])
      invariant forall s <- captured :: captured[s] == sections[prefix + s]
      decreases |todo|
    {
      var name :| name in todo;
      todo := todo - {name};
      if !StartsWith(name, prefix) || sections[name] == map[] {
        assert forall s :: StartsWith(prefix + s, prefix);
        continue;
      }
      var suffix := name[|prefix|..];
      assert name == prefix + suffix;
      assert forall s :: prefix + s == name ==> (prefix + s)[|prefix|..] == s;
      if StartsWith(suffix, "Applets][") { continue; }
      captured := captured[suffix := sections[name]];
    }
  }

  lemma GroupOfOne(name: string, kv: Group, n: string)
    ensures GroupOf(map[name := kv], n) == if n == name then kv else map[]
  {
  }

  lemma GroupOfUpdate(groups: map<string, Group>, name: string, kv: Group, n: string)
    ensures GroupOf(groups[name := kv], n) == if n == name then kv else GroupOf(groups, n)
  {
  }

  lemma GroupOfAbsent(groups: map<string, Group>, name: string)
    requires name !in groups
    ensures GroupOf(groups, name) == map[]
  {
  }

  lemma SameSections(a: Sections, b: Sections)
    requires forall n :: (n in a <==> n in b) && GroupOf(a, n) == GroupOf(b, n)
    ensures a == b
  {
    forall n <- a ensures a[n] == b[n] {
      assert GroupOf(a, n) == GroupOf(b, n);
    }
  }

  /** Writing more under the same prefix. */
  lemma PutMore(sections: Sections, prefix: string, config: Config, suffix: string, kv: Group)
    ensures PutConfig(PutConfig(sections, prefix, config), prefix, map[suffix := kv])
            == PutConfig(sections, prefix, config[suffix := GroupOf(config, suffix) + kv])
  {
    hide PutConfig;
    hide GroupOf;
    var more := config[suffix := GroupOf(config, suffix) + kv];
    var mid, one := PutConfig(sections, prefix, config), map[suffix := kv];
    var a, b := PutConfig(mid, prefix, one), PutConfig(sections, prefix, more);
    forall n ensures (n in a <==> n in b) && GroupOf(a, n) == GroupOf(b, n) {
      PutConfigAt(mid, prefix, one, n);
      PutConfigAt(sections, prefix, config, n);
      PutConfigAt(sections, prefix, more, n);
      if StartsWith(n, prefix) {
        var s := n[|prefix|..];
        var g := GroupOf(sections, n);
        PutConfigNames(mid, prefix, one, s);
        PutConfigNames(sections, prefix, config, s);
        PutConfigNames(sections, prefix, more, s);
        assert prefix + s == n;
        GroupOfOne(suffix, kv, s);
        GroupOfUpdate(config, suffix, GroupOf(config, suffix) + kv, s);
        assert g + GroupOf(config, s) + GroupOf(one, s) == g + GroupOf(more, s);
      }
    }
    SameSections(a, b);
  }

  lemma PutNothing(sections: Sections, prefix: string, config: Config)
    requires forall s :: GroupOf(config, s) == map[]
    ensures PutConfig(sections, prefix, config) == sections
  {
    hide PutConfig;
    hide GroupOf;
    var after := PutConfig(sections, prefix, config);
    forall n ensures (n in after <==> n in sections) && GroupOf(after, n) == GroupOf(sections, n) {
      PutConfigAt(sections, prefix, config, n);
      if StartsWith(n, prefix) {
        PutConfigNames(sections, prefix, config, n[|prefix|..]);
        assert prefix + n[|prefix|..] == n;
      }
    }
    SameSections(after, sections);
  }

  lemma PutEmptyGroup(sections: Sections, prefix: string, suffix: string)
    ensures PutConfig(sections, prefix, map[suffix := map[]]) == sections
  {
    hide PutConfig;
    PutNothing(sections, prefix, map[suffix := map[]]);
  }

  lemma PutNoConfig(sections: Sections, prefix: string)
    ensures PutConfig(sections, prefix, map[]) == sections
  {
    hide PutConfig;
    PutNothing(sections, prefix, map[]);
  }

  lemma PutNoWidgets(sections: Sections, p: string)
    ensures PutWidgets(sections, p, [], []) == sections
  {
  }

  lemma ApplyNobody(d: Desktop, spec: Spec, births: map<int, Birth>)
    ensures ApplyAll(d, {}, spec, births) == d
  {
  }

  lemma PutOneKey(sections: Sections, prefix: string, suffix: string, key: string, value: string)
    ensures PutConfig(sections, prefix, map[suffix := map[key := value]])
            == sections[prefix + suffix := GroupOf(sections, prefix + suffix)[key := value]]
  {
    hide PutConfig;
    hide GroupOf;
    var config := map[suffix := map[key := value]];
    var a := PutConfig(sections, prefix, config);
    var b := sections[prefix + suffix := GroupOf(sections, prefix + suffix)[key := value]];
    assert (prefix + suffix)[|prefix|..] == suffix;
    forall n ensures (n in a <==> n in b) && GroupOf(a, n) == GroupOf(b, n) {
      PutConfigAt(sections, prefix, config, n);
      var g := GroupOf(sections, n);
      GroupOfUpdate(sections, prefix + suffix, GroupOf(sections, prefix + suffix)[key := value], n);
      if StartsWith(n, prefix) {
        var s := n[|prefix|..];
        PutConfigNames(sections, prefix, config, s);
        assert prefix + s == n;
        GroupOfOne(suffix, map[key := value], s);
        assert g + map[key := value] == g[key := value];
        assert g + map[] == g;
        assert key in map[key := value];
      }
    }
    SameSections(a, b);
  }

  /** One key more of a group. */
  lemma PutKey(sections: Sections, prefix: string, suffix: string, done: Group, key: string, value: string)
    ensures var before := PutConfig(sections, prefix, map[suffix := done]);
            PutConfig(sections, prefix, map[suffix := done[key := value]])
            == before[prefix + suffix := GroupOf(before, prefix + suffix)[key := value]]
  {
    hide *;
    PutOneKey(PutConfig(sections, prefix, map[suffix := done]), prefix, suffix, key, value);
    PutMore(sections, prefix, map[suffix := done], suffix, map[key := value]);
    GroupOfOne(suffix, done, suffix);
    assert done + map[key := value] == done[key := value];
    assert map[suffix := done][suffix := done[key := value]] == map[suffix := done[key := value]];
  }

  lemma PutWidgetsSnoc(sections: Sections, p: string, ids: seq<string>, widgets: seq<Widget>, i: nat)
    requires |ids| == |widgets| && i < |ids|
    ensures PutWidgets(sections, p, ids[..i + 1], widgets[..i + 1]) ==
            PutConfig(PutWidgets(sections, p, ids[..i], widgets[..i]), AppletPrefix(p, ids[i]), widgets[i].config)
  {
    hide PutConfig;
    assert ids[..i + 1][..i] == ids[..i] && widgets[..i + 1][..i] == widgets[..i];
  }

  lemma AppliesNext(d: Desktop, stale: set<int>, todo: set<int>, spec: Spec, births: map<int, Birth>)
    requires todo != {} && forall s <- stale :: s in births && |births[s].ids| == |spec.widgets|
    ensures var s := Lowest(todo);
            ApplyAll(d, stale * todo, spec, births) ==
            ApplyAll(if s in stale then Apply(d, s, spec, births[s]) else d, stale * (todo - {s}), spec, births)
  {
    hide Apply;
    var s := Lowest(todo);
    if s in stale {
      assert s in stale * todo;
      assert Lowest(stale * todo) == s;
      assert stale * todo - {s} == stale * (todo - {s});
    } else {
      assert stale * todo == stale * (todo - {s});
    }
  }

  class Plasma {
    var panels: map<int, Panel>
    var sections: Sections
    var record: Option<Record>

    function View(): World
      reads this
    {
      World(Desktop(panels, sections), record)
    }

    /** `kwriteconfig6` with one --group per name. */
    method KWriteConfig(groups: seq<string>, key: string, value: string)
      modifies this`sections
      ensures sections == old(sections)[Join(groups) := GroupOf(old(sections), Join(groups))[key := value]]
    {
      var name := Join(groups);
      sections := sections[name := GroupOf(sections, name)[key := value]];
    }

    /** One group of one widget, key by key. */
    method WriteGroup(panelId: string, appletId: string, suffix: string, kv: Group)
      modifies this`sections
      ensures sections == PutConfig(old(sections), AppletPrefix(panelId, appletId), map[suffix := kv])
    {
      hide *;
      var prefix := AppletPrefix(panelId, appletId);
      var groups := ["Containments", panelId, "Applets", appletId] + Split(suffix);
      PathRejoins(panelId, appletId, suffix);
      var todo := kv.Keys;
      assert kv - todo == map[];
      PutEmptyGroup(sections, prefix, suffix);
      while todo != {}
        invariant todo <= kv.Keys
        invariant sections == PutConfig(old(sections), prefix, map[suffix := kv - todo])
        decreases |todo|
      {
        var key :| key in todo;
        PutKey(old(sections), prefix, suffix, kv - todo, key, kv[key]);
        KWriteConfig(groups, key, kv[key]);
        assert kv - (todo - {key}) == (kv - todo)[key := kv[key]];
        todo := todo - {key};
      }
      assert kv - todo == kv;
    }

    /** One widget's config, group by group. */
    method WriteConfig(panelId: string, appletId: string, config: Config)
      modifies this`sections
      ensures sections == PutConfig(old(sections), AppletPrefix(panelId, appletId), config)
    {
      hide *;
      var prefix := AppletPrefix(panelId, appletId);
      var todo := config.Keys;
      assert config - todo == map[];
      PutNoConfig(sections, prefix);
      while todo != {}
        invariant todo <= config.Keys
        invariant sections == PutConfig(old(sections), prefix, config - todo)
        decreases |todo|
      {
        var suffix :| suffix in todo;
        ghost var done := config - todo;
        WriteGroup(panelId, appletId, suffix, config[suffix]);
        PutMore(old(sections), prefix, done, suffix, config[suffix]);
        todo := todo - {suffix};
        assert config - todo == done[suffix := config[suffix]];
        GroupOfAbsent(done, suffix);
        assert map[] + config[suffix] == config[suffix];
      }
      assert config - todo == config;
    }

    /** Rebuild one screen's panel from a spec and give the new widgets their config. */
    method ApplyPanelSpec(screen: int, spec: Spec, b: Birth)
      requires |b.ids| == |spec.widgets|
      modifies this`panels, this`sections
      ensures Desktop(panels, sections) == Apply(old(Desktop(panels, sections)), screen, spec, b)
    {
      hide Rebuild;
      hide PutWidgets;
      hide PutConfig;
      hide AppletPrefix;
      ghost var was := Desktop(panels, sections);
      var rebuilt := Rebuild(Desktop(panels, sections), screen, spec, b);
      panels, sections := rebuilt.panels, rebuilt.sections;
      PutNoWidgets(sections, b.panelId);
      assert b.ids[..0] == [] && spec.widgets[..0] == [];
      for i := 0 to |spec.widgets|
        invariant panels == rebuilt.panels
        invariant sections == PutWidgets(rebuilt.sections, b.panelId, b.ids[..i], spec.widgets[..i])
      {
        WriteConfig(b.panelId, b.ids[i], spec.widgets[i].config);
        PutWidgetsSnoc(rebuilt.sections, b.panelId, b.ids, spec.widgets, i);
      }
      assert b.ids[..|spec.widgets|] == b.ids && spec.widgets[..|spec.widgets|] == spec.widgets;
    }

    /** The loop over the screens. */
    method Follow(current: Record, c: int, births: map<int, Birth>)
      requires c in current && forall s <- Stale(current, c) :: s in births && |births[s].ids| == |current[c].widgets|
      modifies this`panels, this`sections
      ensures Desktop(panels, sections)
              == ApplyAll(old(Desktop(panels, sections)), Stale(current, c), current[c], births)
    {
      hide Apply;
      hide ApplyAll;
      ghost var stale := Stale(current, c);
      ghost var wanted := ApplyAll(Desktop(panels, sections), stale, current[c], births);
      var todo := current.Keys;
      assert stale * todo == stale;
      while todo != {}
        invariant todo <= current.Keys
        invariant ApplyAll(Desktop(panels, sections), stale * todo, current[c], births) == wanted
        decreases |todo|
      {
        var s := Lowest(todo);
        AppliesNext(Desktop(panels, sections), stale, todo, current[c], births);
        if s != c && current[s] != current[c] {
          ApplyPanelSpec(s, current[c], births[s]);
        }
        todo := todo - {s};
      }
      assert stale * todo == {};
      ApplyNobody(Desktop(panels, sections), current[c], births);
    }

    /** One trigger of the mirror service. */
    method MirrorPanels(primary: int, births: map<int, Birth>)
      requires PlasmaOk(View(), primary, births)
      modifies this
      ensures View() == Mirror(old(View()), primary, births)
    {
      hide Apply;
      hide ApplyAll;
      hide BirthOk;
      hide CapturePanel;
      var d := Desktop(panels, sections);
      var current := Current(d);
      if |current.Keys| < 2 { return; }
      var who := Canonical(record, current, primary);
      if who.None? {
        record := Some(current);
        return;
      }
      var c := who.value;
      BirthsFit(d, Stale(current, c), |current[c].widgets|, births);
      Follow(current, c, births);
      record := Some(Everywhere(current, c));
    }
  }
}
