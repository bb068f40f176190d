/** Where in time a conversation belongs. */
module Timeline {
  import opened Wrappers

  datatype Conversation = Conversation(
    id: string,
    createTime: Option<int>,
    modifyTime: Option<int>,
    workspace: string,
    customWorkspace: bool,
    pinned: bool,
    pinnedAt: Option<int>)

  /** The clock as read once, the local offset from UTC, and the translator. */
  datatype View = View(now: int, zone: int, t: string -> string)

  const DAY_MS: int := 1000 * 60 * 60 * 24

  const KEYS: seq<string> := ["workspace.today", "workspace.yesterday", "workspace.recent7Days", "workspace.earlier"]

  predicate Truthy(time: Option<int>) {
    time.Some? && time.value != 0
  }

  function ActivityTime(c: Conversation): int {
    if Truthy(c.modifyTime) then c.modifyTime.value
    else if Truthy(c.createTime) then c.createTime.value
    else 0
  }

  /** The local calendar day, all days of 24 hours. */
  function Day(time: int, zone: int): int {
    (time + zone) / DAY_MS
  }

  function DiffDay(time1: int, time2: int, zone: int): nat {
    var diff := Day(time2, zone) - Day(time1, zone);
    if diff < 0 then -diff else diff
  }

  function TimelineLabel(time: int, v: View): string {
    var days := DiffDay(v.now, time, v.zone);
    if days == 0 then v.t(KEYS[0])
    else if days == 1 then v.t(KEYS[1])
    else if days < 7 then v.t(KEYS[2])
    else v.t(KEYS[3])
  }
}
