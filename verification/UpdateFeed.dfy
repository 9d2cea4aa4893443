/** The bounded feed of workflow updates and the readers that follow it with a cursor. */
module UpdateFeed {
  import opened Basics

  datatype Update = Update(id: nat, workflow: string)

  datatype Feed = Feed(limit: nat, latest: nat, events: seq<Update>, shuttingDown: bool)

  function EmptyFeed(retained: nat): Feed {
    Feed(Max(1, retained), 0, [], false)
  }

  function LastOf<T>(s: seq<T>, n: nat): (r: seq<T>) {
    if |s| <= n then s else s[|s| - n..]
  }

  lemma DropFirst<T>(s: seq<T>, n: nat)
    requires n < |s|
    ensures LastOf(s[1..], n) == LastOf(s, n)
  {
  }

  function Publish(f: Feed, workflow: string): Feed {
    f.(latest := f.latest + 1, events := LastOf(f.events + [Update(f.latest + 1, workflow)], f.limit))
  }

  /** The first event in `events` after the cursor. */
  function FirstAfter(events: seq<Update>, cursor: nat): (r: Option<Update>)
    ensures r.Some? ==> r.value in events && cursor < r.value.id
  {
    if events == [] then None
    else if events[0].id > cursor then Some(events[0])
    else FirstAfter(events[1..], cursor)
  }

  /** What a waiting reader gets from the feed as it stands when the reader wakes up. */
  function Wait(f: Feed, cursor: nat): Option<Update> {
    if f.shuttingDown || f.latest <= cursor then None else FirstAfter(f.events, cursor)
  }

  /** The retained ids are the last `min(latest, limit)` ones, without a gap. */
  ghost predicate Retains(f: Feed) {
    && 1 <= f.limit
    && |f.events| == (if f.latest <= f.limit then f.latest else f.limit)
    && forall i :: 0 <= i < |f.events| ==> f.events[i].id == f.latest - |f.events| + 1 + i
  }

  /** Ids up to this one have left the feed. */
  function Evicted(f: Feed): int {
    f.latest - |f.events|
  }

  lemma PublishRetains(f: Feed, workflow: string)
    requires Retains(f)
    ensures Retains(Publish(f, workflow))
    ensures Publish(f, workflow).events[|Publish(f, workflow).events| - 1] == Update(f.latest + 1, workflow)
    ensures Evicted(f) <= Evicted(Publish(f, workflow)) <= Evicted(f) + 1
  {
  }

  /** Against a gap-free block the first event after the cursor is the next id that is still there. */
  lemma {:induction false} FirstAfterIsNext(events: seq<Update>, first: nat, cursor: nat)
    requires forall i :: 0 <= i < |events| ==> events[i].id == first + i
    ensures events == [] || cursor >= first + |events| - 1 ==> FirstAfter(events, cursor) == None
    ensures events != [] && cursor < first + |events| - 1 ==>
              FirstAfter(events, cursor) == Some(events[if cursor < first then 0 else cursor + 1 - first])
  {
    if events != [] && events[0].id <= cursor {
      assert events[0].id == first;
      FirstAfterIsNext(events[1..], first + 1, cursor);
    }
  }

  /** A reader gets an update iff one is newer than its cursor and the feed is up: the next id, or
      the oldest one left when the next was evicted. */
  lemma WaitIsNext(f: Feed, cursor: nat)
    requires Retains(f)
    ensures Wait(f, cursor).Some? <==> !f.shuttingDown && cursor < f.latest
    ensures Wait(f, cursor).Some? ==> Wait(f, cursor).value in f.events
                                      && Wait(f, cursor).value.id == Max(cursor, Evicted(f)) + 1
  {
    FirstAfterIsNext(f.events, f.latest - |f.events| + 1, cursor);
  }

  // ----- A reader among publishers -----

  datatype Action = Publishing(workflow: string) | Reading | ShuttingDown

  /** The feed, everything ever published, and one reader: its cursor and what it was given. */
  datatype Session = Session(feed: Feed, published: seq<Update>, cursor: nat, seen: seq<Update>)

  function Step(s: Session, a: Action): Session {
    match a
    case Publishing(w) => s.(feed := Publish(s.feed, w), published := s.published + [Update(s.feed.latest + 1, w)])
    case Reading =>
      (match Wait(s.feed, s.cursor)
       case None => s
       case Some(u) => s.(cursor := u.id, seen := s.seen + [u]))
    case ShuttingDown => s.(feed := s.feed.(shuttingDown := true))
  }

  function Run(s: Session, actions: seq<Action>): Session {
    if actions == [] then s else Step(Run(s, actions[..|actions| - 1]), actions[|actions| - 1])
  }

  /** The feed holds the tail of what was published. */
  ghost predicate HoldsTail(f: Feed, published: seq<Update>) {
    && Retains(f)
    && |published| == f.latest
    && (forall i :: 0 <= i < |published| ==> published[i].id == i + 1)
    && |f.events| <= |published|
    && (forall i :: 0 <= i < |f.events| ==> f.events[i] == published[|published| - |f.events| + i])
  }

  ghost predicate Published(s: Session) {
    HoldsTail(s.feed, s.published)
  }

  ghost predicate Saw(seen: seq<Update>, id: nat) {
    exists i :: 0 <= i < |seen| && seen[i].id == id
  }

  /** Since cursor `from`, the reader was given published updates in increasing order, the last one at
      its cursor, and every id it passed over had been evicted. */
  ghost predicate Followed(s: Session, from: nat) {
    && from <= s.cursor
    && (forall i :: 0 <= i < |s.seen| ==> from < s.seen[i].id <= s.cursor && s.seen[i] in s.published)
    && (forall i, j :: 0 <= i < j < |s.seen| ==> s.seen[i].id < s.seen[j].id)
    && (forall id: nat :: from < id <= s.cursor && !Saw(s.seen, id) ==> id <= Evicted(s.feed))
  }

  lemma SawMore(seen: seq<Update>, u: Update, id: nat)
    ensures Saw(seen + [u], id) <==> Saw(seen, id) || u.id == id
  {
    var more := seen + [u];
    assert more[|seen|] == u;
    if Saw(seen, id) {
      var i :| 0 <= i < |seen| && seen[i].id == id;
      assert more[i].id == id;
    }
  }

  lemma ReadingFollows(s: Session, from: nat, u: Update, next: Session)
    requires Published(s) && Followed(s, from)
    requires Wait(s.feed, s.cursor) == Some(u) && next == s.(cursor := u.id, seen := s.seen + [u])
    ensures Followed(next, from)
  {
    WaitIsNext(s.feed, s.cursor);
    assert u in s.published;
    forall id: nat ensures Saw(next.seen, id) <==> Saw(s.seen, id) || u.id == id {
      SawMore(s.seen, u, id);
    }
  }

  lemma TailOfPublished(published: seq<Update>, events: seq<Update>, u: Update, limit: nat)
    requires |events| <= |published|
    requires forall i :: 0 <= i < |events| ==> events[i] == published[|published| - |events| + i]
    ensures var (kept, all) := (LastOf(events + [u], limit), published + [u]);
            |kept| <= |all| && forall i :: 0 <= i < |kept| ==> kept[i] == all[|all| - |kept| + i]
  {
  }

  lemma NextIdFollows(published: seq<Update>, u: Update)
    requires u.id == |published| + 1 && forall i :: 0 <= i < |published| ==> published[i].id == i + 1
    ensures forall i :: 0 <= i < |published| + 1 ==> (published + [u])[i].id == i + 1
  {
  }

  lemma PublishingKeepsTail(f: Feed, published: seq<Update>, w: string)
    requires HoldsTail(f, published)
    ensures HoldsTail(Publish(f, w), published + [Update(f.latest + 1, w)])
  {
    var u, next := Update(f.latest + 1, w), Publish(f, w);
    assert Retains(next) by { PublishRetains(f, w); }
    NextIdFollows(published, u);
    TailOfPublished(published, f.events, u, f.limit);
  }

  lemma PublishingFollows(s: Session, w: string, from: nat, next: Session)
    requires Published(s) && Followed(s, from) && next == Step(s, Publishing(w))
    ensures Published(next) && Followed(next, from)
  {
    PublishingKeepsTail(s.feed, s.published, w);
    PublishRetains(s.feed, w);
    assert Evicted(s.feed) <= Evicted(next.feed);
    forall i | 0 <= i < |next.seen| ensures from < next.seen[i].id <= next.cursor && next.seen[i] in next.published {
      assert s.seen[i] in s.published;
    }
  }

  lemma StepFollows(s: Session, a: Action, from: nat)
    requires Published(s) && Followed(s, from)
    ensures Published(Step(s, a)) && Followed(Step(s, a), from)
  {
    match a
    case Publishing(w) =>
      PublishingFollows(s, w, from, Step(s, a));
    case Reading =>
      if Wait(s.feed, s.cursor).Some? {
        ReadingFollows(s, from, Wait(s.feed, s.cursor).value, Step(s, a));
      }
    case ShuttingDown =>
  }

  /** Over every interleaving of publishers and the reader: ids strictly increase, each update is one
      that was published, and only evicted ones are missed. */
  lemma {:induction false} ReaderSeesEverythingRetained(s: Session, actions: seq<Action>)
    requires Published(s) && s.seen == []
    ensures Published(Run(s, actions)) && Followed(Run(s, actions), s.cursor)
  {
    if actions != [] {
      ReaderSeesEverythingRetained(s, actions[..|actions| - 1]);
      StepFollows(Run(s, actions[..|actions| - 1]), actions[|actions| - 1], s.cursor);
    }
  }

  /** Reads still needed to catch up. */
  function Behind(s: Session): (r: nat)
    requires Retains(s.feed)
  {
    if s.cursor >= s.feed.latest then 0 else s.feed.latest - Max(s.cursor, Evicted(s.feed))
  }

  function Reads(n: nat): (r: seq<Action>)
    ensures |r| == n && forall i :: 0 <= i < n ==> r[i] == Reading
  {
    seq(n, _ => Reading)
  }

  /** What a reader at `cursor` is given next: the update after position `at`. */
  lemma WaitDelivers(f: Feed, published: seq<Update>, cursor: nat, at: nat)
    requires HoldsTail(f, published) && !f.shuttingDown && cursor < f.latest && at == Max(cursor, Evicted(f))
    ensures at < |published| && Wait(f, cursor) == Some(published[at]) && published[at].id == at + 1
  {
    WaitIsNext(f, cursor);
  }

  /** The session once the reader was given `n` updates from position `at` on. */
  function Given(s: Session, at: nat, n: nat): Session
    requires at + n <= |s.published|
  {
    s.(cursor := if n == 0 then s.cursor else at + n, seen := s.seen + s.published[at..at + n])
  }

  lemma SliceOneMore<T>(head: seq<T>, s: seq<T>, from: nat, to: nat)
    requires from <= to < |s|
    ensures head + s[from..to] + [s[to]] == head + s[from..to + 1]
  {
  }

  lemma GivenCursor(f: Feed, cursor: nat, at: nat, n: nat, after: nat)
    requires Retains(f) && cursor < f.latest && at == Max(cursor, Evicted(f)) && at + n < f.latest
    requires after == if n == 0 then cursor else at + n
    ensures after < f.latest && at + n == Max(after, Evicted(f))
  {
  }

  lemma GivenOneMore(s: Session, at: nat, n: nat, before: Session)
    requires Published(s) && !s.feed.shuttingDown && s.cursor < s.feed.latest && at == Max(s.cursor, Evicted(s.feed))
    requires at + n < s.feed.latest && before == Given(s, at, n)
    ensures Step(before, Reading) == Given(s, at, n + 1)
  {
    GivenCursor(s.feed, s.cursor, at, n, before.cursor);
    WaitDelivers(s.feed, s.published, before.cursor, at + n);
    SliceOneMore(s.seen, s.published, at, at + n);
  }

  lemma {:induction false} ReadsDeliver(s: Session, at: nat, n: nat)
    requires Published(s) && !s.feed.shuttingDown && s.cursor <= s.feed.latest
    requires at == Max(s.cursor, Evicted(s.feed)) && at + n <= s.feed.latest
    ensures Run(s, Reads(n)) == Given(s, at, n)
  {
    if n == 0 {
      assert s.seen + s.published[at..at] == s.seen;
    } else {
      ReadsDeliver(s, at, n - 1);
      assert Reads(n)[..n - 1] == Reads(n - 1);
      GivenOneMore(s, at, n - 1, Given(s, at, n - 1));
    }
  }

  /** With publishing stopped, a reader reaches the latest id in exactly `Behind` reads, at most as
      many as the feed retains, and on the way it is given every update it could still get. */
  lemma ReaderCatchesUp(s: Session, behind: nat, at: nat, end: Session)
    requires Published(s) && !s.feed.shuttingDown && s.cursor <= s.feed.latest
    requires behind == Behind(s) && at + behind == s.feed.latest && end == Run(s, Reads(behind))
    ensures behind <= |s.feed.events|
    ensures end == s.(cursor := s.feed.latest, seen := s.seen + s.published[at..])
  {
    var position := NextPosition(s);
    ReadsDeliver(s, at, behind);
    GivenAll(s, at, behind, end);
  }

  /** The position of the next update the reader can get. */
  lemma NextPosition(s: Session) returns (at: nat)
    requires Published(s) && s.cursor <= s.feed.latest
    ensures at == Max(s.cursor, Evicted(s.feed)) && at + Behind(s) == s.feed.latest == |s.published|
    ensures Behind(s) <= |s.feed.events| && (Behind(s) == 0 ==> s.cursor == at)
  {
    at := s.feed.latest - Behind(s);
  }

  lemma GivenAll(s: Session, at: nat, n: nat, all: Session)
    requires at + n == |s.published| && (n == 0 ==> s.cursor == at) && all == Given(s, at, n)
    ensures all == s.(cursor := at + n, seen := s.seen + s.published[at..])
  {
    assert s.published[at..at + n] == s.published[at..];
  }

  /** Fewer reads do not suffice. */
  lemma ReaderNeedsAllReads(s: Session, n: nat)
    requires Published(s) && !s.feed.shuttingDown && s.cursor <= s.feed.latest && n < Behind(s)
    ensures Run(s, Reads(n)).cursor < s.feed.latest
  {
    var at := NextPosition(s);
    ReadsDeliver(s, at, n);
  }

  /** After shutdown no reader is given anything more. */
  lemma {:induction false} ShutdownIsFinal(s: Session, actions: seq<Action>)
    requires s.feed.shuttingDown
    ensures Run(s, actions).feed.shuttingDown && Run(s, actions).seen == s.seen
  {
    if actions != [] {
      ShutdownIsFinal(s, actions[..|actions| - 1]);
    }
  }

  // ----- The feed object -----

  class WorkflowUpdateFeed {
    const limit: nat
    var latest: nat
    var events: seq<Update>
    var shuttingDown: bool

    function View(): Feed
      reads this
    {
      Feed(limit, latest, events, shuttingDown)
    }

    constructor (retained: nat)
      ensures View() == EmptyFeed(retained)
    {
      limit, latest, events, shuttingDown := Max(1, retained), 0, [], false;
    }

    method Append(workflow: string) returns (event: Update)
      modifies this
      ensures View() == Publish(old(View()), workflow)
      ensures event == Update(latest, workflow)
      ensures old(Retains(View())) ==> Retains(View())
    {
      if Retains(View()) {
        PublishRetains(View(), workflow);
      }
      latest := latest + 1;
      event := Update(latest, workflow);
      events := events + [event];
      PopOldest();
    }

    method PopOldest()
      modifies this`events
      ensures events == LastOf(old(events), limit)
    {
      while |events| > limit
        invariant LastOf(events, limit) == LastOf(old(events), limit)
      {
        DropFirst(events, limit);
        events := events[1..];
      }
    }

    method WaitForUpdate(cursor: nat) returns (r: Option<Update>)
      ensures r == Wait(View(), cursor)
      ensures Retains(View()) ==> (r.Some? <==> !shuttingDown && cursor < latest)
      ensures Retains(View()) && r.Some? ==> r.value.id == Max(cursor, latest - |events|) + 1
    {
      if Retains(View()) {
        WaitIsNext(View(), cursor);
      }
      if shuttingDown || latest <= cursor {
        return None;
      }
      var i := 0;
      while i < |events|
        invariant 0 <= i <= |events|
        invariant FirstAfter(events[i..], cursor) == FirstAfter(events, cursor)
      {
        if events[i].id > cursor {
          return Some(events[i]);
        }
        i := i + 1;
      }
      return None;
    }

    method Shutdown()
      modifies this
      ensures View() == old(View()).(shuttingDown := true)
    {
      shuttingDown := true;
    }
  }
}
