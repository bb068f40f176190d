/** The sidebar shows every conversation once, each list in order, the sections from newest to oldest. */
module GroupingTheorems {
  import opened Wrappers
  import opened Listing
  import opened Timeline
  import opened Grouping

  // ---------- What is shown ----------

  function GroupShown(g: WorkspaceGroup): multiset<Conversation> {
    multiset(g.conversations)
  }

  function ItemShown(i: Item): multiset<Conversation> {
    match i
    case WorkspaceItem(_, group) => GroupShown(group)
    case ConversationItem(_, conversation) => multiset{conversation}
  }

  function SectionShown(s: Section): multiset<Conversation> {
    Total(s.items, ItemShown)
  }

  function Shown(h: GroupedHistory): multiset<Conversation> {
    multiset(h.pinned) + Total(h.sections, SectionShown)
  }

  /** Each conversation is shown as often as it is given. */
  ghost predicate ShowsEachOnce(h: GroupedHistory, conversations: seq<Conversation>) {
    forall x :: Shown(h)[x] == multiset(conversations)[x]
  }

  // ---------- Where a conversation belongs ----------

  function Newest(conversations: seq<Conversation>): int {
    if conversations == [] then 0
    else
      var n := |conversations| - 1;
      var last := ActivityTime(conversations[n]);
      if n == 0 then last
      else
        var before := Newest(conversations[..n]);
        if before > last then before else last
  }

  function SharingWorkspace(conversations: seq<Conversation>, workspace: string): seq<Conversation> {
    Filter(Filter(conversations, InWorkspace), NameIs(WorkspaceOf, workspace))
  }

  function WorkspaceLabel(conversations: seq<Conversation>, v: View, workspace: string): string {
    TimelineLabel(Newest(SharingWorkspace(conversations, workspace)), v)
  }

  /** A conversation in a workspace is dated by the newest of that workspace. */
  function ShownTime(conversations: seq<Conversation>, c: Conversation): int {
    if InWorkspace(c) then Newest(SharingWorkspace(conversations, c.workspace)) else ActivityTime(c)
  }

  function LabelOf(conversations: seq<Conversation>, v: View, c: Conversation): string {
    TimelineLabel(ShownTime(conversations, c), v)
  }

  lemma {:induction false} NewestIsMost(cs: seq<Conversation>, x: Conversation)
    requires x in cs
    ensures Newest(cs) >= ActivityTime(x)
    ensures exists y :: y in cs && Newest(cs) == ActivityTime(y)
  {
    var n := |cs| - 1;
    if n == 0 {
      assert cs[0] in cs && Newest(cs) == ActivityTime(cs[0]);
    } else {
      NewestIsMost(cs[..n], if x in cs[..n] then x else cs[0]);
      var y :| y in cs[..n] && Newest(cs[..n]) == ActivityTime(y);
      assert cs[n] in cs && y in cs;
    }
  }

  lemma LatestIsNewest(e: Entry<Conversation>)
    requires e.values != []
    ensures GroupOf(e).conversations != [] && Latest(GroupOf(e)) == Newest(e.values)
  {
    var sorted := SortDescending(e.values, ActivityTime);
    SortLength(e.values, ActivityTime);
    SortDescends(e.values, ActivityTime);
    SortIn(e.values, ActivityTime, sorted[0]);
    NewestIsMost(e.values, sorted[0]);
    var y :| y in e.values && Newest(e.values) == ActivityTime(y);
    SortIn(e.values, ActivityTime, y);
  }

  /** A workspace's entry holds all its conversations, and its group is filed by the newest of them. */
  lemma EntryHolds(conversations: seq<Conversation>, v: View, i: nat)
    requires i < |Workspaces(conversations)|
    ensures var e := Workspaces(conversations)[i];
      && e.values != [] && e.values == SharingWorkspace(conversations, e.key)
      && GroupLabel(v)(GroupOf(e)) == WorkspaceLabel(conversations, v, e.key)
  {
    var custom := Filter(conversations, InWorkspace);
    IndexTidy(custom, WorkspaceOf);
    EntryIsLookup(Workspaces(conversations), i);
    IndexLooksUp(custom, WorkspaceOf, Workspaces(conversations)[i].key);
    LatestIsNewest(Workspaces(conversations)[i]);
  }

  // ---------- Conservation ----------

  function IsAt(conversations: seq<Conversation>, v: View, timeline: string): string -> bool {
    (workspace: string) => WorkspaceLabel(conversations, v, workspace) == timeline
  }

  lemma {:induction false} GroupItemsShow(groups: seq<WorkspaceGroup>)
    ensures Total(GroupItems(groups), ItemShown) == Total(groups, GroupShown)
  {
    if groups == [] {
    } else {
      var n := |groups| - 1;
      GroupItemsShow(groups[..n]);
      TotalSnoc(GroupItems(groups[..n]), WorkspaceItem(Latest(groups[n]), groups[n]), ItemShown);
    }
  }

  lemma {:induction false} LooseItemsShow(cs: seq<Conversation>)
    ensures Total(LooseItems(cs), ItemShown) == multiset(cs)
  {
    if cs == [] {
    } else {
      var n := |cs| - 1;
      LooseItemsShow(cs[..n]);
      TotalSnoc(LooseItems(cs[..n]), ConversationItem(ActivityTime(cs[n]), cs[n]), ItemShown);
      LastOut(cs);
    }
  }

  lemma FilterTotalSnoc<T, C>(a: seq<T>, x: T, p: T -> bool, f: T -> multiset<C>)
    ensures Total(Filter(a + [x], p), f) == Total(Filter(a, p), f) + If(p(x), f(x))
  {
  }

  lemma {:induction false} GroupsShow(m: seq<Entry<Conversation>>, v: View, timeline: string, p: string -> bool)
    requires forall e :: e in m ==> (GroupLabel(v)(GroupOf(e)) == timeline <==> p(e.key))
    ensures Total(Filter(GroupsOf(m), NameIs(GroupLabel(v), timeline)), GroupShown) == Kept(m, p)
  {
    if m == [] {
    } else {
      var init, last := m[..|m| - 1], m[|m| - 1];
      GroupsShow(init, v, timeline, p);
      assert last in m && m == init + [last];
      SortMultiset(last.values, ActivityTime);
      FilterTotalSnoc(GroupsOf(init), GroupOf(last), NameIs(GroupLabel(v), timeline), GroupShown);
      FilterTotalSnoc(init, last, KeyOk(p), Held());
    }
  }

  lemma ItemsShow(cs: seq<Conversation>, v: View, timeline: string)
    ensures Total(ItemsAt(cs, v, timeline), ItemShown)
      == multiset(Filter(Filter(cs, InWorkspace), NameOk(WorkspaceOf, IsAt(cs, v, timeline))))
         + multiset(Filter(Filter(cs, Loose), NameIs(OwnLabel(v), timeline)))
  {
    var m, p := Workspaces(cs), IsAt(cs, v, timeline);
    var groups, loose := Lookup(GroupsByTimeline(cs, v), timeline), Lookup(LooseByTimeline(cs, v), timeline);
    SortTotal(GroupItems(groups) + LooseItems(loose), ItemTime, ItemShown);
    TotalAppend(GroupItems(groups), LooseItems(loose), ItemShown);
    GroupItemsShow(groups);
    LooseItemsShow(loose);
    IndexLooksUp(GroupsOf(m), GroupLabel(v), timeline);
    IndexLooksUp(Filter(cs, Loose), OwnLabel(v), timeline);
    forall e | e in m ensures GroupLabel(v)(GroupOf(e)) == timeline <==> p(e.key) {
      var i :| 0 <= i < |m| && m[i] == e;
      EntryHolds(cs, v, i);
    }
    GroupsShow(m, v, timeline, p);
    IndexHolds(Filter(cs, InWorkspace), WorkspaceOf, p);
  }

  lemma InWorkspaceCount(cs: seq<Conversation>, p: string -> bool, x: Conversation)
    ensures multiset(Filter(Filter(cs, InWorkspace), NameOk(WorkspaceOf, p)))[x]
      == if InWorkspace(x) && p(x.workspace) then multiset(cs)[x] else 0
  {
    FilterCount(Filter(cs, InWorkspace), NameOk(WorkspaceOf, p), x);
    FilterCount(cs, InWorkspace, x);
    assert NameOk(WorkspaceOf, p)(x) == p(WorkspaceOf(x)) == p(x.workspace);
  }

  lemma LooseCount(cs: seq<Conversation>, v: View, timeline: string, x: Conversation)
    ensures multiset(Filter(Filter(cs, Loose), NameIs(OwnLabel(v), timeline)))[x]
      == if Loose(x) && TimelineLabel(ActivityTime(x), v) == timeline then multiset(cs)[x] else 0
  {
    FilterCount(Filter(cs, Loose), NameIs(OwnLabel(v), timeline), x);
    FilterCount(cs, Loose, x);
  }

  /** The items under a label show the conversations that belong there, as often as they are listed. */
  lemma ItemsShowTheirs(cs: seq<Conversation>, v: View, timeline: string, x: Conversation)
    ensures Total(ItemsAt(cs, v, timeline), ItemShown)[x]
      == if LabelOf(cs, v, x) == timeline then multiset(cs)[x] else 0
  {
    ItemsShow(cs, v, timeline);
    InWorkspaceCount(cs, IsAt(cs, v, timeline), x);
    LooseCount(cs, v, timeline, x);
  }

  /** The count, once for each of the first n timeline keys that translate to this label. */
  function Copies(count: nat, v: View, timeline: string, n: nat): nat
    requires n <= 4
  {
    if n == 0 then 0 else Copies(count, v, timeline, n - 1) + if v.t(KEYS[n - 1]) == timeline then count else 0
  }

  lemma SectionShows(cs: seq<Conversation>, v: View, n: nat, x: Conversation)
    requires 0 < n <= 4
    ensures Total(Sections(cs, v, n), SectionShown)[x] == Total(Sections(cs, v, n - 1), SectionShown)[x]
      + if LabelOf(cs, v, x) == v.t(KEYS[n - 1]) then multiset(cs)[x] else 0
  {
    var timeline := v.t(KEYS[n - 1]);
    var items := ItemsAt(cs, v, timeline);
    ItemsShowTheirs(cs, v, timeline, x);
    var before := Sections(cs, v, n - 1);
    if items == [] {
      assert Sections(cs, v, n) == before;
    } else {
      TotalSnoc(before, Section(timeline, items), SectionShown);
    }
  }

  lemma {:induction false} SectionsShow(cs: seq<Conversation>, v: View, n: nat, x: Conversation)
    requires n <= 4
    ensures Total(Sections(cs, v, n), SectionShown)[x] == Copies(multiset(cs)[x], v, LabelOf(cs, v, x), n)
  {
    if n == 0 {
    } else {
      SectionsShow(cs, v, n - 1, x);
      SectionShows(cs, v, n, x);
    }
  }

  function Rank(time: int, v: View): (r: nat)
    ensures r < 4 && TimelineLabel(time, v) == v.t(KEYS[r])
  {
    var days := DiffDay(v.now, time, v.zone);
    if days == 0 then 0 else if days == 1 then 1 else if days < 7 then 2 else 3
  }

  lemma LabelIsTranslated(cs: seq<Conversation>, v: View, x: Conversation) returns (r: nat)
    ensures r < 4 && LabelOf(cs, v, x) == v.t(KEYS[r])
  {
    r := Rank(ShownTime(cs, x), v);
  }

  /** No label that is in use stands for two of the four timeline keys. */
  ghost predicate LabelsApart(cs: seq<Conversation>, v: View) {
    forall x :: x in cs ==> Apart(v, LabelOf(cs, v, x))
  }

  ghost predicate Apart(v: View, timeline: string) {
    forall i, j :: 0 <= i < j < 4 && timeline == v.t(KEYS[i]) ==> v.t(KEYS[j]) != v.t(KEYS[i])
  }

  lemma OneMoreCopy(count: nat, v: View, timeline: string, n: nat)
    requires n < 4
    ensures Copies(count, v, timeline, n + 1)
      == Copies(count, v, timeline, n) + if v.t(KEYS[n]) == timeline then count else 0
  {
  }

  lemma OnceIff(count: nat, v: View, timeline: string, r: nat)
    requires r < 4 && timeline == v.t(KEYS[r])
    ensures Copies(count, v, timeline, 4) >= count
    ensures Copies(count, v, timeline, 4) == count <==> count == 0 || Apart(v, timeline)
  {
    OneMoreCopy(count, v, timeline, 0);
    OneMoreCopy(count, v, timeline, 1);
    OneMoreCopy(count, v, timeline, 2);
    OneMoreCopy(count, v, timeline, 3);
  }

  lemma ShownCount(conversations: seq<Conversation>, v: View, x: Conversation)
    ensures var l := LabelOf(Filter(conversations, Normal), v, x); var count := multiset(conversations)[x];
      && Shown(Grouped(conversations, v))[x] == (if x.pinned then count else Copies(count, v, l, 4))
      && Shown(Grouped(conversations, v))[x] >= count
      && (Shown(Grouped(conversations, v))[x] == count <==> count == 0 || x.pinned || Apart(v, l))
  {
    var normal, count := Filter(conversations, Normal), multiset(conversations)[x];
    SortMultiset(Filter(conversations, Pinned), PinnedAt);
    FilterCount(conversations, Pinned, x);
    FilterCount(conversations, Normal, x);
    SectionsShow(normal, v, 4, x);
    var r := LabelIsTranslated(normal, v, x);
    OnceIff(count, v, LabelOf(normal, v, x), r);
    OnceIff(0, v, LabelOf(normal, v, x), r);
  }

  /** Every conversation is shown exactly once, if and only if no label in use stands for two timeline keys. */
  lemma ConservesIff(conversations: seq<Conversation>, v: View)
    ensures ShowsEachOnce(Grouped(conversations, v), conversations) <==> LabelsApart(Filter(conversations, Normal), v)
  {
    var normal, shown := Filter(conversations, Normal), Shown(Grouped(conversations, v));
    forall x
      ensures x in normal <==> multiset(conversations)[x] > 0 && !x.pinned
      ensures shown[x] == multiset(conversations)[x]
        <==> multiset(conversations)[x] == 0 || x.pinned || Apart(v, LabelOf(normal, v, x))
    {
      FilterIn(conversations, Normal, x);
      assert x in conversations <==> x in multiset(conversations);
      ShownCount(conversations, v, x);
    }
  }

  /** A translator without texts shows a conversation under every key. */
  lemma UntranslatedIsShownTwice(c: Conversation)
    requires !c.pinned
    ensures Shown(Grouped([c], View(0, 0, (k: string) => ""))) != multiset([c])
  {
    var v := View(0, 0, (k: string) => "");
    FilterIn([c], Normal, c);
    assert !Apart(v, LabelOf(Filter([c], Normal), v, c)) by { assert v.t(KEYS[0]) == v.t(KEYS[1]) == ""; }
    ConservesIff([c], v);
  }

  /** Nothing is ever lost, and nothing but the conversations is shown. */
  lemma NothingIsLost(conversations: seq<Conversation>, v: View, x: Conversation)
    ensures Shown(Grouped(conversations, v))[x] >= multiset(conversations)[x]
    ensures x in Shown(Grouped(conversations, v)) ==> x in conversations
  {
    ShownCount(conversations, v, x);
    assert x in conversations <==> x in multiset(conversations);
  }

  // ---------- Order ----------

  lemma {:induction false} GroupItemFrom(groups: seq<WorkspaceGroup>, item: Item)
    requires item in GroupItems(groups)
    ensures item.WorkspaceItem? && item.group in groups && item.time == Latest(item.group)
  {
    var n := |groups| - 1;
    if item != WorkspaceItem(Latest(groups[n]), groups[n]) { GroupItemFrom(groups[..n], item); }
  }

  lemma {:induction false} LooseItemFrom(cs: seq<Conversation>, item: Item)
    requires item in LooseItems(cs)
    ensures item.ConversationItem? && item.conversation in cs && item.time == ActivityTime(item.conversation)
  {
    var n := |cs| - 1;
    if item != ConversationItem(ActivityTime(cs[n]), cs[n]) { LooseItemFrom(cs[..n], item); }
  }

  lemma {:induction false} GroupFrom(m: seq<Entry<Conversation>>, g: WorkspaceGroup) returns (i: nat)
    requires g in GroupsOf(m)
    ensures i < |m| && g == GroupOf(m[i])
  {
    i := |m| - 1;
    if g != GroupOf(m[i]) { i := GroupFrom(m[..i], g); }
  }

  /** A group is all the conversations of its workspace, newest first. */
  lemma GroupIsWhole(cs: seq<Conversation>, g: WorkspaceGroup)
    requires g in GroupsOf(Workspaces(cs))
    ensures g.conversations != [] && Descending(g.conversations, ActivityTime)
    ensures multiset(g.conversations) == multiset(SharingWorkspace(cs, g.workspace))
    ensures Latest(g) == Newest(SharingWorkspace(cs, g.workspace))
  {
    var i := GroupFrom(Workspaces(cs), g);
    var e := Workspaces(cs)[i];
    EntryHolds(cs, View(0, 0, (k: string) => k), i);
    LatestIsNewest(e);
    SortMultiset(e.values, ActivityTime);
    SortDescends(e.values, ActivityTime);
  }

  /** An item's time is the activity of a conversation under its label, and the date of that conversation. */
  lemma ItemComesFrom(cs: seq<Conversation>, v: View, timeline: string, item: Item) returns (x: Conversation)
    requires item in ItemsAt(cs, v, timeline)
    ensures x in cs && ActivityTime(x) == item.time == ShownTime(cs, x)
    ensures TimelineLabel(item.time, v) == timeline == LabelOf(cs, v, x)
    ensures item.WorkspaceItem? ==> item.group in GroupsOf(Workspaces(cs))
  {
    var groups, loose := Lookup(GroupsByTimeline(cs, v), timeline), Lookup(LooseByTimeline(cs, v), timeline);
    SortIn(GroupItems(groups) + LooseItems(loose), ItemTime, item);
    if item in GroupItems(groups) {
      GroupItemFrom(groups, item);
      IndexLooksUp(GroupsOf(Workspaces(cs)), GroupLabel(v), timeline);
      FilterIn(GroupsOf(Workspaces(cs)), NameIs(GroupLabel(v), timeline), item.group);
      GroupIsWhole(cs, item.group);
      x := item.group.conversations[0];
      assert x in multiset(item.group.conversations);
      FilterIn(Filter(cs, InWorkspace), NameIs(WorkspaceOf, item.group.workspace), x);
      assert x in multiset(SharingWorkspace(cs, item.group.workspace));
      FilterIn(cs, InWorkspace, x);
    } else {
      LooseItemFrom(loose, item);
      IndexLooksUp(Filter(cs, Loose), OwnLabel(v), timeline);
      x := item.conversation;
      FilterIn(Filter(cs, Loose), NameIs(OwnLabel(v), timeline), x);
      FilterIn(cs, Loose, x);
    }
  }

  lemma {:induction false} SectionFrom(cs: seq<Conversation>, v: View, n: nat, s: Section)
    requires n <= 4 && s in Sections(cs, v, n)
    ensures s.items != [] && s.items == ItemsAt(cs, v, s.timeline)
  {
    if s in Sections(cs, v, n - 1) { SectionFrom(cs, v, n - 1, s); }
  }

  /** Pinned conversations, the items of each section and the conversations of each group are newest first. */
  lemma ListsDescend(conversations: seq<Conversation>, v: View, s: Section)
    requires s in Grouped(conversations, v).sections
    ensures Descending(Grouped(conversations, v).pinned, PinnedAt)
    ensures s.items != [] && Descending(s.items, ItemTime)
    ensures forall i :: i in s.items && i.WorkspaceItem? ==> Descending(i.group.conversations, ActivityTime)
  {
    var cs := Filter(conversations, Normal);
    SortDescends(Filter(conversations, Pinned), PinnedAt);
    SectionFrom(cs, v, 4, s);
    SortDescends(GroupItems(Lookup(GroupsByTimeline(cs, v), s.timeline))
                 + LooseItems(Lookup(LooseByTimeline(cs, v), s.timeline)), ItemTime);
    forall i | i in s.items && i.WorkspaceItem? ensures Descending(i.group.conversations, ActivityTime) {
      var x := ItemComesFrom(cs, v, s.timeline, i);
      GroupIsWhole(cs, i.group);
    }
  }

  predicate Falling(sections: seq<Section>) {
    forall a, b, i, j :: 0 <= a < b < |sections| && 0 <= i < |sections[a].items| && 0 <= j < |sections[b].items| ==>
      sections[a].items[i].time >= sections[b].items[j].time
  }

  predicate Ahead(time: int, v: View) {
    Day(time, v.zone) > Day(v.now, v.zone)
  }

  /** Whatever is dated ahead of today, nothing is listed under an earlier timeline key. */
  ghost predicate NothingBeforeAhead(cs: seq<Conversation>, v: View) {
    forall x, y :: x in cs && y in cs && Ahead(ShownTime(cs, x), v) ==>
      Rank(ShownTime(cs, y), v) >= Rank(ShownTime(cs, x), v)
  }

  /** Of two dates of different rank, the closer one is the later one exactly when the other is not ahead of today. */
  lemma CloserIsLaterIff(s: int, t: int, v: View)
    requires Rank(s, v) < Rank(t, v)
    ensures s > t <==> !Ahead(t, v)
    ensures s != t
  {
    assert Day(s, v.zone) != Day(t, v.zone);
  }

  /** The items under a key's label are dated by conversations, and have that key's rank. */
  lemma ItemRank(cs: seq<Conversation>, v: View, k: nat, item: Item) returns (x: Conversation)
    requires k < 4 && LabelsApart(cs, v) && item in ItemsAt(cs, v, v.t(KEYS[k]))
    ensures x in cs && ShownTime(cs, x) == item.time && Rank(item.time, v) == k
  {
    x := ItemComesFrom(cs, v, v.t(KEYS[k]), item);
    assert Apart(v, LabelOf(cs, v, x));
  }

  lemma {:induction false} SectionsRank(cs: seq<Conversation>, v: View, n: nat, a: nat, item: Item)
    returns (x: Conversation)
    requires n <= 4 && LabelsApart(cs, v) && a < |Sections(cs, v, n)| && item in Sections(cs, v, n)[a].items
    ensures x in cs && ShownTime(cs, x) == item.time && Rank(item.time, v) < n
  {
    if a < |Sections(cs, v, n - 1)| {
      x := SectionsRank(cs, v, n - 1, a, item);
    } else {
      x := ItemRank(cs, v, n - 1, item);
    }
  }

  lemma LaterSectionIsOlder(cs: seq<Conversation>, v: View, k: nat, a: nat, above: Item, below: Item)
    requires k < 4 && LabelsApart(cs, v) && NothingBeforeAhead(cs, v)
    requires a < |Sections(cs, v, k)| && above in Sections(cs, v, k)[a].items && below in ItemsAt(cs, v, v.t(KEYS[k]))
    ensures above.time >= below.time
  {
    var y := SectionsRank(cs, v, k, a, above);
    var x := ItemRank(cs, v, k, below);
    CloserIsLaterIff(above.time, below.time, v);
  }

  predicate Above(before: seq<Section>, items: seq<Item>) {
    forall a, i, j :: 0 <= a < |before| && 0 <= i < |before[a].items| && 0 <= j < |items| ==>
      before[a].items[i].time >= items[j].time
  }

  lemma FallingSnoc(before: seq<Section>, last: Section)
    requires Falling(before) && Above(before, last.items)
    ensures Falling(before + [last])
  {
  }

  lemma {:induction false} SectionsFall(cs: seq<Conversation>, v: View, n: nat)
    requires n <= 4 && LabelsApart(cs, v) && NothingBeforeAhead(cs, v)
    ensures Falling(Sections(cs, v, n))
  {
    if n == 0 {
    } else {
      SectionsFall(cs, v, n - 1);
      var before, last := Sections(cs, v, n - 1), SectionOf(cs, v, n - 1);
      forall a, i, j | 0 <= a < |before| && 0 <= i < |before[a].items| && 0 <= j < |last.items|
        ensures before[a].items[i].time >= last.items[j].time
      {
        LaterSectionIsOlder(cs, v, n - 1, a, before[a].items[i], last.items[j]);
      }
      FallingSnoc(before, last);
      LastSection(cs, v, n);
    }
  }

  // ---------- Every conversation's item, and where its section stands ----------

  lemma {:induction false} LooseItemHas(cs: seq<Conversation>, x: Conversation)
    requires x in cs
    ensures ConversationItem(ActivityTime(x), x) in LooseItems(cs)
  {
    if x != cs[|cs| - 1] { LooseItemHas(cs[..|cs| - 1], x); }
  }

  lemma {:induction false} GroupItemHas(groups: seq<WorkspaceGroup>, g: WorkspaceGroup)
    requires g in groups
    ensures WorkspaceItem(Latest(g), g) in GroupItems(groups)
  {
    if g != groups[|groups| - 1] { GroupItemHas(groups[..|groups| - 1], g); }
  }

  lemma {:induction false} GroupsHave(m: seq<Entry<Conversation>>, i: nat)
    requires i < |m|
    ensures GroupOf(m[i]) in GroupsOf(m)
  {
    if i < |m| - 1 { GroupsHave(m[..|m| - 1], i); }
  }

  /** The group of a conversation's workspace, dated by its newest conversation. */
  lemma GroupOfWorkspace(cs: seq<Conversation>, v: View, x: Conversation) returns (g: WorkspaceGroup)
    requires x in cs && InWorkspace(x)
    ensures g in GroupsOf(Workspaces(cs)) && Latest(g) == ShownTime(cs, x)
  {
    var custom := Filter(cs, InWorkspace);
    FilterIn(cs, InWorkspace, x);
    FilterIn(custom, NameIs(WorkspaceOf, x.workspace), x);
    IndexLooksUp(custom, WorkspaceOf, x.workspace);
    var i := LookupFound(Workspaces(cs), x.workspace);
    EntryHolds(cs, v, i);
    LatestIsNewest(Workspaces(cs)[i]);
    GroupsHave(Workspaces(cs), i);
    g := GroupOf(Workspaces(cs)[i]);
  }

  /** Every conversation has an item of its date under its label. */
  lemma ItemOf(cs: seq<Conversation>, v: View, x: Conversation) returns (i: nat)
    requires x in cs
    ensures var items := ItemsAt(cs, v, LabelOf(cs, v, x));
      i < |items| && items[i].time == ShownTime(cs, x)
  {
    var timeline := LabelOf(cs, v, x);
    var groups, loose := Lookup(GroupsByTimeline(cs, v), timeline), Lookup(LooseByTimeline(cs, v), timeline);
    var item;
    if InWorkspace(x) {
      var g := GroupOfWorkspace(cs, v, x);
      IndexLooksUp(GroupsOf(Workspaces(cs)), GroupLabel(v), timeline);
      FilterIn(GroupsOf(Workspaces(cs)), NameIs(GroupLabel(v), timeline), g);
      GroupItemHas(groups, g);
      item := WorkspaceItem(Latest(g), g);
    } else {
      IndexLooksUp(Filter(cs, Loose), OwnLabel(v), timeline);
      FilterIn(cs, Loose, x);
      FilterIn(Filter(cs, Loose), NameIs(OwnLabel(v), timeline), x);
      LooseItemHas(loose, x);
      item := ConversationItem(ActivityTime(x), x);
    }
    SortIn(GroupItems(groups) + LooseItems(loose), ItemTime, item);
    i :| 0 <= i < |ItemsAt(cs, v, timeline)| && ItemsAt(cs, v, timeline)[i] == item;
  }

  lemma LastSection(cs: seq<Conversation>, v: View, n: nat)
    requires 0 < n <= 4
    ensures var s := SectionOf(cs, v, n - 1);
      Sections(cs, v, n) == Sections(cs, v, n - 1) + if s.items == [] then [] else [s]
  {
  }

  function SectionOf(cs: seq<Conversation>, v: View, k: nat): Section
    requires k < 4
  {
    Section(v.t(KEYS[k]), ItemsAt(cs, v, v.t(KEYS[k])))
  }

  /** The section stands at this place. */
  predicate StandsAt(sections: seq<Section>, place: nat, s: Section) {
    place < |sections| && sections[place] == s
  }

  lemma StaysAt(before: seq<Section>, more: seq<Section>, place: nat, s: Section)
    requires StandsAt(before, place, s) || (place == |before| && more == [s])
    ensures StandsAt(before + more, place, s)
  {
  }

  /** The section of key k, when there is one, stands behind those of the keys before it. */
  lemma {:induction false} SectionPlace(cs: seq<Conversation>, v: View, k: nat, n: nat)
    requires k < n <= 4 && SectionOf(cs, v, k).items != []
    ensures StandsAt(Sections(cs, v, n), |Sections(cs, v, k)|, SectionOf(cs, v, k))
  {
    var last := SectionOf(cs, v, n - 1);
    if k < n - 1 { SectionPlace(cs, v, k, n - 1); }
    LastSection(cs, v, n);
    StaysAt(Sections(cs, v, n - 1), if last.items == [] then [] else [last], |Sections(cs, v, k)|, SectionOf(cs, v, k));
  }

  /** A date ahead of today is listed behind an earlier one of lower rank, whatever the translations. */
  lemma AheadBreaks(cs: seq<Conversation>, v: View, n: nat, x: Conversation, y: Conversation)
    requires x in cs && y in cs && Ahead(ShownTime(cs, x), v)
    requires Rank(ShownTime(cs, y), v) < Rank(ShownTime(cs, x), v) < n <= 4
    ensures !Falling(Sections(cs, v, n))
  {
    var k, l := Rank(ShownTime(cs, y), v), Rank(ShownTime(cs, x), v);
    var i := ItemOf(cs, v, y);
    var j := ItemOf(cs, v, x);
    SectionPlace(cs, v, k, l);
    SectionPlace(cs, v, k, n);
    SectionPlace(cs, v, l, n);
    var sections, a, b := Sections(cs, v, n), |Sections(cs, v, k)|, |Sections(cs, v, l)|;
    CloserIsLaterIff(ShownTime(cs, y), ShownTime(cs, x), v);
    assert sections[a].items[i].time < sections[b].items[j].time;
  }

  /**
   * From one section to the next nothing gets newer, exactly when no conversation is listed
   * under an earlier key than one that is dated ahead of today.
   */
  lemma FallsIff(conversations: seq<Conversation>, v: View)
    requires LabelsApart(Filter(conversations, Normal), v)
    ensures Falling(Grouped(conversations, v).sections) <==> NothingBeforeAhead(Filter(conversations, Normal), v)
  {
    var cs := Filter(conversations, Normal);
    if NothingBeforeAhead(cs, v) {
      SectionsFall(cs, v, 4);
    } else {
      var x, y :| x in cs && y in cs
        && Ahead(ShownTime(cs, x), v) && Rank(ShownTime(cs, y), v) < Rank(ShownTime(cs, x), v);
      AheadBreaks(cs, v, 4, x, y);
    }
  }

  /** A conversation's date is its own activity or that of another of its workspace. */
  lemma DateIsActivity(cs: seq<Conversation>, v: View, x: Conversation) returns (y: Conversation)
    requires x in cs
    ensures y in cs && ActivityTime(y) == ShownTime(cs, x)
  {
    var i := ItemOf(cs, v, x);
    y := ItemComesFrom(cs, v, LabelOf(cs, v, x), ItemsAt(cs, v, LabelOf(cs, v, x))[i]);
  }

  /** So the order holds when no activity lies on a later day than today. */
  lemma HistoryFalls(conversations: seq<Conversation>, v: View)
    requires LabelsApart(Filter(conversations, Normal), v)
    requires forall c :: c in conversations ==> !Ahead(ActivityTime(c), v)
    ensures Falling(Grouped(conversations, v).sections)
  {
    var cs := Filter(conversations, Normal);
    forall x | x in cs ensures !Ahead(ShownTime(cs, x), v) {
      var y := DateIsActivity(cs, v, x);
      FilterIn(conversations, Normal, y);
    }
    FallsIff(conversations, v);
  }

  /** And it fails as soon as anything is dated ahead of today and anything else today. */
  lemma AheadIsListedLate(conversations: seq<Conversation>, v: View, x: Conversation, y: Conversation)
    requires x in conversations && !x.pinned && Ahead(ShownTime(Filter(conversations, Normal), x), v)
    requires y in conversations && !y.pinned
    requires Day(ShownTime(Filter(conversations, Normal), y), v.zone) == Day(v.now, v.zone)
    ensures !Falling(Grouped(conversations, v).sections)
  {
    FilterIn(conversations, Normal, x);
    FilterIn(conversations, Normal, y);
    AheadBreaks(Filter(conversations, Normal), v, 4, x, y);
  }

  // ---------- Times ----------

  /** A local day is a day long, and starts at local midnight. */
  lemma DayIs(time: int, zone: int, day: int)
    ensures Day(time, zone) == day <==> day * 86_400_000 <= time + zone < (day + 1) * 86_400_000
  {
  }

  /** The latest change dates a conversation, its creation only where there is none. */
  lemma ActivityIs(c: Conversation)
    ensures c.modifyTime.Some? && c.modifyTime.value != 0 ==> ActivityTime(c) == c.modifyTime.value
    ensures c.modifyTime in {None, Some(0)} ==> c.createTime.Some? ==> ActivityTime(c) == c.createTime.value
    ensures c.modifyTime in {None, Some(0)} && c.createTime.None? ==> ActivityTime(c) == 0
  {
  }

  /** Today, yesterday, up to six days away in either direction, or further. */
  lemma LabelIs(time: int, v: View)
    ensures var away := DiffDay(time, v.now, v.zone); var text := TimelineLabel(time, v);
      && (away == 0 ==> text == v.t("workspace.today"))
      && (away == 1 ==> text == v.t("workspace.yesterday"))
      && (2 <= away <= 6 ==> text == v.t("workspace.recent7Days"))
      && (away >= 7 ==> text == v.t("workspace.earlier"))
  {
  }

  /** The pinned list is the pinned conversations, each as often as it is given. */
  lemma PinnedApart(conversations: seq<Conversation>, v: View, c: Conversation)
    ensures multiset(Grouped(conversations, v).pinned)[c] == if c.pinned then multiset(conversations)[c] else 0
  {
    SortMultiset(Filter(conversations, Pinned), PinnedAt);
    FilterCount(conversations, Pinned, c);
  }

  lemma PinnedAtIs(c: Conversation)
    ensures c.pinnedAt.Some? ==> PinnedAt(c) == c.pinnedAt.value
    ensures c.pinnedAt.None? ==> PinnedAt(c) == 0
  {
  }

  /** Unpinned, and without a workspace of its own or with one that has no name. */
  predicate Alone(c: Conversation) {
    !c.pinned && (!c.customWorkspace || c.workspace == "")
  }

  predicate Together(c: Conversation, workspace: string) {
    !c.pinned && c.customWorkspace && c.workspace == workspace && workspace != ""
  }

  lemma LooseIsAlone(conversations: seq<Conversation>, v: View, timeline: string, c: Conversation)
    requires c in Lookup(LooseByTimeline(Filter(conversations, Normal), v), timeline)
    ensures Alone(c)
  {
    var cs := Filter(conversations, Normal);
    IndexLooksUp(Filter(cs, Loose), OwnLabel(v), timeline);
    FilterIn(Filter(cs, Loose), NameIs(OwnLabel(v), timeline), c);
    FilterIn(cs, Loose, c);
    FilterIn(conversations, Normal, c);
  }

  lemma GroupIsTogether(conversations: seq<Conversation>, g: WorkspaceGroup, c: Conversation)
    requires g in GroupsOf(Workspaces(Filter(conversations, Normal))) && c in g.conversations
    ensures Together(c, g.workspace)
  {
    var cs := Filter(conversations, Normal);
    GroupIsWhole(cs, g);
    assert c in multiset(g.conversations);
    assert c in multiset(SharingWorkspace(cs, g.workspace));
    FilterIn(Filter(cs, InWorkspace), NameIs(WorkspaceOf, g.workspace), c);
    FilterIn(cs, InWorkspace, c);
    FilterIn(conversations, Normal, c);
  }

  /** What has a workspace of its own is shown in the group of that workspace, everything else alone. */
  lemma AloneOrTogether(conversations: seq<Conversation>, v: View, s: Section, item: Item)
    requires s in Grouped(conversations, v).sections && item in s.items
    ensures item.ConversationItem? ==> Alone(item.conversation)
    ensures item.WorkspaceItem? ==> forall c :: c in item.group.conversations ==> Together(c, item.group.workspace)
  {
    var cs := Filter(conversations, Normal);
    SectionFrom(cs, v, 4, s);
    var groups, loose := Lookup(GroupsByTimeline(cs, v), s.timeline), Lookup(LooseByTimeline(cs, v), s.timeline);
    SortIn(GroupItems(groups) + LooseItems(loose), ItemTime, item);
    if item.WorkspaceItem? {
      var x := ItemComesFrom(cs, v, s.timeline, item);
      forall c | c in item.group.conversations { GroupIsTogether(conversations, item.group, c); }
    } else {
      if item in GroupItems(groups) { GroupItemFrom(groups, item); }
      LooseItemFrom(loose, item);
      LooseIsAlone(conversations, v, s.timeline, item.conversation);
    }
  }
}
