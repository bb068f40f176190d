/** What the WeCom channel remembers between webhooks: event ids already handled and single-use reply URLs. */
module WecomState {
  import opened Wrappers
  import opened Text

  const EVENT_TTL_MS: int := 5 * 60_000
  const RESPONSE_URL_TTL_MS: int := 55 * 60_000

  datatype UrlRecord = UrlRecord(url: string, expiresAt: int, used: bool)

  datatype State = State(eventDeduper: map<string, int>, responseUrlStore: map<string, UrlRecord>)

  const INITIAL: State := State(map[], map[])

  /** Each call, with the clock it reads. */
  datatype Event =
    | Delivery(id: string, at: int)
    | Registration(chat: string, url: string, at: int)
    | Consumption(chat: string, at: int)
    | Cleanup(at: int)

  // ---------- Specification ----------

  /** A stamp of 0 counts as no stamp. */
  predicate Drops(s: State, id: string, now: int) {
    id in s.eventDeduper && s.eventDeduper[id] != 0 && now - s.eventDeduper[id] < EVENT_TTL_MS
  }

  function Deliver(s: State, id: string, now: int): State {
    if id == "" || Drops(s, id, now) then s else s.(eventDeduper := s.eventDeduper[id := now])
  }

  function Register(s: State, chat: string, url: string, now: int): State {
    if Trim(chat) == "" || Trim(url) == "" then s
    else s.(responseUrlStore :=
              s.responseUrlStore[Trim(chat) := UrlRecord(Trim(url), now + RESPONSE_URL_TTL_MS, false)])
  }

  predicate Usable(r: UrlRecord, now: int) {
    !r.used && now < r.expiresAt
  }

  function Yields(s: State, chat: string, now: int): Option<string> {
    var c := Trim(chat);
    if c != "" && c in s.responseUrlStore && Usable(s.responseUrlStore[c], now) then Some(s.responseUrlStore[c].url)
    else None
  }

  function Consume(s: State, chat: string, now: int): State {
    var c := Trim(chat);
    if c == "" || c !in s.responseUrlStore then s
    else if Usable(s.responseUrlStore[c], now) then
      s.(responseUrlStore := s.responseUrlStore[c := s.responseUrlStore[c].(used := true)])
    else s.(responseUrlStore := s.responseUrlStore - {c})
  }

  function Clean(s: State, now: int): State {
    State(map id | id in s.eventDeduper && now - s.eventDeduper[id] <= EVENT_TTL_MS :: s.eventDeduper[id],
          map c | c in s.responseUrlStore && Usable(s.responseUrlStore[c], now) :: s.responseUrlStore[c])
  }

  function Step(s: State, e: Event): State {
    match e
    case Delivery(id, at) => Deliver(s, id, at)
    case Registration(chat, url, at) => Register(s, chat, url, at)
    case Consumption(chat, at) => Consume(s, chat, at)
    case Cleanup(at) => Clean(s, at)
  }

  function After(run: seq<Event>): State {
    if run == [] then INITIAL else Step(After(run[..|run| - 1]), run[|run| - 1])
  }

  // ---------- The channel's records ----------

  class Records {
    var eventDeduper: map<string, int>
    var responseUrlStore: map<string, UrlRecord>

    constructor ()
      ensures Snapshot() == INITIAL
    {
      eventDeduper, responseUrlStore := map[], map[];
    }

    function Snapshot(): State
      reads this
    {
      State(eventDeduper, responseUrlStore)
    }

    method ShouldDropDuplicate(eventId: string, current: int) returns (drop: bool)
      modifies this
      ensures drop == (eventId != "" && Drops(old(Snapshot()), eventId, current))
      ensures Snapshot() == Deliver(old(Snapshot()), eventId, current)
    {
      if eventId == "" { return false; }
      if eventId in eventDeduper {
        var ts := eventDeduper[eventId];
        if ts != 0 && current - ts < EVENT_TTL_MS { return true; }
      }
      eventDeduper := eventDeduper[eventId := current];
      return false;
    }

    method RegisterResponseUrl(chatId: string, responseUrl: string, current: int)
      modifies this
      ensures Snapshot() == Register(old(Snapshot()), chatId, responseUrl, current)
    {
      var normalizedChatId, normalizedUrl := Trim(chatId), Trim(responseUrl);
      if normalizedChatId == "" || normalizedUrl == "" { return; }
      responseUrlStore :=
        responseUrlStore[normalizedChatId := UrlRecord(normalizedUrl, current + RESPONSE_URL_TTL_MS, false)];
    }

    method ConsumeResponseUrl(chatId: string, current: int) returns (url: Option<string>)
      modifies this
      ensures url == Yields(old(Snapshot()), chatId, current)
      ensures Snapshot() == Consume(old(Snapshot()), chatId, current)
    {
      var normalizedChatId := Trim(chatId);
      if normalizedChatId == "" || normalizedChatId !in responseUrlStore { return None; }
      var record := responseUrlStore[normalizedChatId];
      if record.used || record.expiresAt <= current {
        responseUrlStore := responseUrlStore - {normalizedChatId};
        return None;
      }
      responseUrlStore := responseUrlStore[normalizedChatId := record.(used := true)];
      return Some(record.url);
    }

    method DropOldEvents(current: int)
      modifies this`eventDeduper
      ensures eventDeduper == Clean(old(Snapshot()), current).eventDeduper
    {
      ghost var before := eventDeduper;
      var ids := eventDeduper.Keys;
      while ids != {}
        invariant ids <= eventDeduper.Keys <= before.Keys
        invariant forall id :: id in eventDeduper ==> eventDeduper[id] == before[id]
        invariant forall id :: id in before && id !in ids ==>
          (id in eventDeduper <==> current - before[id] <= EVENT_TTL_MS)
        decreases |ids|
      {
        var id :| id in ids;
        if current - eventDeduper[id] > EVENT_TTL_MS { eventDeduper := eventDeduper - {id}; }
        ids := ids - {id};
      }
    }

    method DropSpentUrls(current: int)
      modifies this`responseUrlStore
      ensures responseUrlStore == Clean(old(Snapshot()), current).responseUrlStore
    {
      ghost var before := responseUrlStore;
      var chats := responseUrlStore.Keys;
      while chats != {}
        invariant chats <= responseUrlStore.Keys <= before.Keys
        invariant forall c :: c in responseUrlStore ==> responseUrlStore[c] == before[c]
        invariant forall c :: c in before && c !in chats ==> (c in responseUrlStore <==> Usable(before[c], current))
        decreases |chats|
      {
        var chat :| chat in chats;
        var record := responseUrlStore[chat];
        if record.expiresAt <= current || record.used { responseUrlStore := responseUrlStore - {chat}; }
        chats := chats - {chat};
      }
    }

    method CleanupExpiredRecords(current: int)
      modifies this
      ensures Snapshot() == Clean(old(Snapshot()), current)
    {
      DropOldEvents(current);
      DropSpentUrls(current);
    }
  }
}
