/** The conversation sidebar: pinned conversations first, the rest by timeline and workspace. */
module Grouping {
  import opened Wrappers
  import opened Listing
  import opened Timeline

  datatype WorkspaceGroup = WorkspaceGroup(workspace: string, conversations: seq<Conversation>)

  datatype Item =
    | WorkspaceItem(time: int, group: WorkspaceGroup)
    | ConversationItem(time: int, conversation: Conversation)

  datatype Section = Section(timeline: string, items: seq<Item>)

  datatype GroupedHistory = GroupedHistory(pinned: seq<Conversation>, sections: seq<Section>)

  // ---------- Specification ----------

  predicate InWorkspace(c: Conversation) {
    c.customWorkspace && c.workspace != ""
  }

  predicate Loose(c: Conversation) {
    !InWorkspace(c)
  }

  predicate Pinned(c: Conversation) {
    c.pinned
  }

  predicate Normal(c: Conversation) {
    !c.pinned
  }

  function PinnedAt(c: Conversation): int {
    if c.pinnedAt.Some? then c.pinnedAt.value else 0
  }

  function WorkspaceOf(c: Conversation): string {
    c.workspace
  }

  function ItemTime(i: Item): int {
    i.time
  }

  /** The activity of a group's first conversation; no group is empty. */
  function Latest(g: WorkspaceGroup): int {
    if g.conversations == [] then 0 else ActivityTime(g.conversations[0])
  }

  function GroupOf(e: Entry<Conversation>): WorkspaceGroup {
    WorkspaceGroup(e.key, SortDescending(e.values, ActivityTime))
  }

  function GroupsOf(m: seq<Entry<Conversation>>): seq<WorkspaceGroup> {
    if m == [] then [] else GroupsOf(m[..|m| - 1]) + [GroupOf(m[|m| - 1])]
  }

  function GroupLabel(v: View): WorkspaceGroup -> string {
    (g: WorkspaceGroup) => TimelineLabel(Latest(g), v)
  }

  function OwnLabel(v: View): Conversation -> string {
    (c: Conversation) => TimelineLabel(ActivityTime(c), v)
  }

  function Workspaces(conversations: seq<Conversation>): seq<Entry<Conversation>> {
    Index(Filter(conversations, InWorkspace), WorkspaceOf)
  }

  function GroupsByTimeline(conversations: seq<Conversation>, v: View): seq<Entry<WorkspaceGroup>> {
    Index(GroupsOf(Workspaces(conversations)), GroupLabel(v))
  }

  function LooseByTimeline(conversations: seq<Conversation>, v: View): seq<Entry<Conversation>> {
    Index(Filter(conversations, Loose), OwnLabel(v))
  }

  function GroupItems(groups: seq<WorkspaceGroup>): seq<Item> {
    if groups == [] then []
    else
      var last := groups[|groups| - 1];
      GroupItems(groups[..|groups| - 1]) + [WorkspaceItem(Latest(last), last)]
  }

  function LooseItems(conversations: seq<Conversation>): seq<Item> {
    if conversations == [] then []
    else
      var last := conversations[|conversations| - 1];
      LooseItems(conversations[..|conversations| - 1]) + [ConversationItem(ActivityTime(last), last)]
  }

  function SectionItems(groups: seq<WorkspaceGroup>, loose: seq<Conversation>): seq<Item> {
    SortDescending(GroupItems(groups) + LooseItems(loose), ItemTime)
  }

  function ItemsAt(conversations: seq<Conversation>, v: View, timeline: string): seq<Item> {
    SectionItems(Lookup(GroupsByTimeline(conversations, v), timeline),
                 Lookup(LooseByTimeline(conversations, v), timeline))
  }

  /** The sections of the first n timeline keys, those without items left out. */
  function Sections(conversations: seq<Conversation>, v: View, n: nat): seq<Section>
    requires n <= 4
  {
    if n == 0 then []
    else
      var timeline := v.t(KEYS[n - 1]);
      var items := ItemsAt(conversations, v, timeline);
      Sections(conversations, v, n - 1) + if items == [] then [] else [Section(timeline, items)]
  }

  function Grouped(conversations: seq<Conversation>, v: View): GroupedHistory {
    GroupedHistory(SortDescending(Filter(conversations, Pinned), PinnedAt),
                   Sections(Filter(conversations, Normal), v, 4))
  }

  // ---------- The helpers ----------

  method SplitByWorkspace(conversations: seq<Conversation>)
    returns (all: seq<Entry<Conversation>>, loose: seq<Conversation>)
    ensures all == Workspaces(conversations)
    ensures loose == Filter(conversations, Loose)
  {
    all, loose := [], [];
    for i := 0 to |conversations|
      invariant all == Workspaces(conversations[..i])
      invariant loose == Filter(conversations[..i], Loose)
    {
      var conv := conversations[i];
      assert conversations[..i + 1][..i] == conversations[..i];
      if conv.customWorkspace && conv.workspace != "" {
        all := AddTo(all, conv.workspace, conv);
      } else {
        loose := loose + [conv];
      }
    }
    assert conversations[..|conversations|] == conversations;
  }

  method FileGroups(all: seq<Entry<Conversation>>, v: View) returns (byTimeline: seq<Entry<WorkspaceGroup>>)
    ensures byTimeline == Index(GroupsOf(all), GroupLabel(v))
  {
    byTimeline := [];
    for i := 0 to |all|
      invariant byTimeline == Index(GroupsOf(all[..i]), GroupLabel(v))
    {
      assert all[..i + 1][..i] == all[..i];
      var group := GroupOf(all[i]);
      assert GroupsOf(all[..i + 1])[..|GroupsOf(all[..i])|] == GroupsOf(all[..i]);
      byTimeline := AddTo(byTimeline, TimelineLabel(Latest(group), v), group);
    }
    assert all[..|all|] == all;
  }

  method FileLoose(loose: seq<Conversation>, v: View) returns (byTimeline: seq<Entry<Conversation>>)
    ensures byTimeline == Index(loose, OwnLabel(v))
  {
    byTimeline := [];
    for i := 0 to |loose|
      invariant byTimeline == Index(loose[..i], OwnLabel(v))
    {
      assert loose[..i + 1][..i] == loose[..i];
      byTimeline := AddTo(byTimeline, TimelineLabel(ActivityTime(loose[i]), v), loose[i]);
    }
    assert loose[..|loose|] == loose;
  }

  method ItemsOf(groups: seq<WorkspaceGroup>, loose: seq<Conversation>) returns (items: seq<Item>)
    ensures items == SectionItems(groups, loose)
  {
    items := [];
    for i := 0 to |groups|
      invariant items == GroupItems(groups[..i])
    {
      assert groups[..i + 1][..i] == groups[..i];
      items := items + [WorkspaceItem(Latest(groups[i]), groups[i])];
    }
    assert groups[..|groups|] == groups;
    for i := 0 to |loose|
      invariant items == GroupItems(groups) + LooseItems(loose[..i])
    {
      assert loose[..i + 1][..i] == loose[..i];
      items := items + [ConversationItem(ActivityTime(loose[i]), loose[i])];
    }
    assert loose[..|loose|] == loose;
    items := SortDescending(items, ItemTime);
  }

  method GroupByTimelineAndWorkspace(conversations: seq<Conversation>, v: View) returns (sections: seq<Section>)
    ensures sections == Sections(conversations, v, 4)
  {
    var all, loose := SplitByWorkspace(conversations);
    var groupsByTimeline := FileGroups(all, v);
    var looseByTimeline := FileLoose(loose, v);
    sections := [];
    for n := 0 to 4
      invariant sections == Sections(conversations, v, n)
    {
      var timeline := v.t(KEYS[n]);
      var groups, single := Lookup(groupsByTimeline, timeline), Lookup(looseByTimeline, timeline);
      OneMoreSection(conversations, v, n, groups, single);
      if groups != [] || single != [] {
        var items := ItemsOf(groups, single);
        sections := sections + [Section(timeline, items)];
      }
    }
  }

  lemma OneMoreSection(conversations: seq<Conversation>, v: View, n: nat,
                       groups: seq<WorkspaceGroup>, single: seq<Conversation>)
    requires n < 4
    requires groups == Lookup(GroupsByTimeline(conversations, v), v.t(KEYS[n]))
    requires single == Lookup(LooseByTimeline(conversations, v), v.t(KEYS[n]))
    ensures Sections(conversations, v, n + 1) == Sections(conversations, v, n)
      + if groups == [] && single == [] then [] else [Section(v.t(KEYS[n]), SectionItems(groups, single))]
  {
    NoItems(groups, single);
  }

  method BuildGroupedHistory(conversations: seq<Conversation>, v: View) returns (h: GroupedHistory)
    ensures h == Grouped(conversations, v)
  {
    var pinned := SortDescending(Filter(conversations, Pinned), PinnedAt);
    var sections := GroupByTimelineAndWorkspace(Filter(conversations, Normal), v);
    return GroupedHistory(pinned, sections);
  }

  lemma NoItems(groups: seq<WorkspaceGroup>, loose: seq<Conversation>)
    ensures SectionItems(groups, loose) == [] <==> groups == [] && loose == []
  {
  }
}
