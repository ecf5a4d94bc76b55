/** The append-only event log, and the cursors that page through it. */
module Events {
  import opened PyValues
  import opened Text

  datatype Stream = EntityStream | TaskStream | AgentStream | ObjectStream

  datatype Kind = Create | Update | Deleted | Canceled | ExecuteRequest | CancelRequest

  /** The name of a kind on the wire. */
  function KindName(kind: Kind): string {
    match kind
    case Create => "CREATE"
    case Update => "UPDATE"
    case Deleted => "DELETED"
    case Canceled => "CANCELED"
    case ExecuteRequest => "ExecuteRequest"
    case CancelRequest => "CancelRequest"
  }

  /** What an event carries. The agent requests also name the row they were made from. */
  datatype Body =
    | EntityBody(entity: Obj)
    | TaskBody(task: Obj)
    | ExecuteBody(taskId: string, task: Obj, assignee: Option<string>)
    | CancelBody(taskId: string, task: Obj, cancel: Obj)
    | ObjectBody(object': Obj)

  datatype Event = Event(id: nat, stream: Stream, subject: string, kind: Kind, time: int, body: Body)

  type Log = seq<Event>

  function AddEvent(log: Log, stream: Stream, subject: string, kind: Kind, time: int, body: Body): Log {
    log + [Event(|log| + 1, stream, subject, kind, time, body)]
  }

  /** Ids count the events from 1. */
  predicate IdsOk(log: Log) {
    forall i :: 0 <= i < |log| ==> log[i].id == i + 1
  }

  /** The id of the last event of a stream, 0 when there is none. */
  function MaxEventId(log: Log, stream: Stream): (id: nat)
    ensures id == 0 || exists i :: 0 <= i < |log| && log[i].stream == stream && log[i].id == id
  {
    if log == [] then 0
    else
      var last := log[|log| - 1];
      var before := MaxEventId(log[..|log| - 1], stream);
      if last.stream == stream && last.id > before then last.id else before
  }

  datatype Subjects = AnySubject | OneOf(subjects: seq<string>)

  predicate Accepts(f: Subjects, subject: string) {
    f.AnySubject? || subject in f.subjects
  }

  predicate Wanted(e: Event, stream: Stream, f: Subjects, lo: int, hi: int) {
    e.stream == stream && Accepts(f, e.subject) && lo < e.id <= hi
  }

  /** The events of a stream for some subjects with ids after `lo` up to `hi`, in order. */
  function Window(log: Log, stream: Stream, f: Subjects, lo: int, hi: int): seq<Event> {
    if log == [] then []
    else
      var e := log[|log| - 1];
      var front := Window(log[..|log| - 1], stream, f, lo, hi);
      if Wanted(e, stream, f, lo, hi) then front + [e] else front
  }

  /** `max(1, min(limit, 1000))` */
  function Clamp(limit: int): (n: nat)
    ensures 1 <= n <= 1000
  {
    if limit < 1 then 1 else if limit > 1000 then 1000 else limit
  }

  function Take(events: seq<Event>, n: nat): seq<Event> {
    if |events| <= n then events else events[..n]
  }

  /** One query: the first events after the cursor, as many as the clamped limit allows. */
  function PollEvents(log: Log, stream: Stream, after: int, limit: int, f: Subjects): seq<Event> {
    Take(Window(log, stream, f, after, |log|), Clamp(limit))
  }

  /** The cursor after a page: `max([after, *ids])`. */
  function NextCursor(after: int, page: seq<Event>): (next: int)
    ensures after <= next
  {
    if page == [] then after
    else
      var next := NextCursor(after, page[..|page| - 1]);
      if page[|page| - 1].id > next then page[|page| - 1].id else next
  }

  lemma WindowPush(log: Log, e: Event, stream: Stream, f: Subjects, lo: int, hi: int)
    ensures Window(log + [e], stream, f, lo, hi)
            == Window(log, stream, f, lo, hi) + if Wanted(e, stream, f, lo, hi) then [e] else []
  {
    hide Wanted;
    assert (log + [e])[..|log|] == log;
  }

  lemma {:induction false} WindowConcat(a: Log, b: Log, stream: Stream, f: Subjects, lo: int, hi: int)
    ensures Window(a + b, stream, f, lo, hi) == Window(a, stream, f, lo, hi) + Window(b, stream, f, lo, hi)
  {
    assert Window([], stream, f, lo, hi) == [];
    hide Window, Wanted;
    if b == [] {
      assert a + b == a;
    } else {
      var front, e := b[..|b| - 1], b[|b| - 1];
      assert b == front + [e] && a + b == (a + front) + [e];
      WindowConcat(a, front, stream, f, lo, hi);
      WindowPush(a + front, e, stream, f, lo, hi);
      WindowPush(front, e, stream, f, lo, hi);
    }
  }

  lemma {:induction false} WindowMembers(log: Log, stream: Stream, f: Subjects, lo: int, hi: int)
    ensures forall e :: e in Window(log, stream, f, lo, hi) <==> e in log && Wanted(e, stream, f, lo, hi)
  {
    if log == [] {
    } else {
      var front, e := log[..|log| - 1], log[|log| - 1];
      hide Wanted;
      assert log == front + [e];
      WindowMembers(front, stream, f, lo, hi);
    }
  }

  lemma {:induction false} WindowEmpty(log: Log, stream: Stream, f: Subjects, lo: int, hi: int)
    requires forall e :: e in log ==> !Wanted(e, stream, f, lo, hi)
    ensures Window(log, stream, f, lo, hi) == []
  {
    hide Wanted;
    if log == [] {
    } else {
      assert log == log[..|log| - 1] + [log[|log| - 1]];
      WindowEmpty(log[..|log| - 1], stream, f, lo, hi);
    }
  }

  lemma {:induction false} WindowSplit(log: Log, stream: Stream, f: Subjects, lo: int, mid: int, hi: int)
    requires IdsOk(log) && lo <= mid <= hi
    ensures Window(log, stream, f, lo, mid) + Window(log, stream, f, mid, hi) == Window(log, stream, f, lo, hi)
  {
    if log == [] {
    } else {
      var front, e := log[..|log| - 1], log[|log| - 1];
      assert log == front + [e];
      WindowSplit(front, stream, f, lo, mid, hi);
      if e.id <= mid {
        WindowEmpty(front, stream, f, mid, hi);
        WindowEmpty(log, stream, f, mid, hi);
      }
      WindowPush(front, e, stream, f, lo, mid);
      WindowPush(front, e, stream, f, mid, hi);
      WindowPush(front, e, stream, f, lo, hi);
      hide Window;
    }
  }

  /** Ids grow along a window. */
  lemma {:induction false} WindowSorted(log: Log, stream: Stream, f: Subjects, lo: int, hi: int)
    requires IdsOk(log)
    ensures Sorted(Window(log, stream, f, lo, hi))
  {
    if log == [] {
    } else {
      var front, e := log[..|log| - 1], log[|log| - 1];
      assert log == front + [e];
      WindowSorted(front, stream, f, lo, hi);
      WindowPush(front, e, stream, f, lo, hi);
      WindowMembers(front, stream, f, lo, hi);
      var w := Window(front, stream, f, lo, hi);
      hide Window, Wanted;
      forall i | 0 <= i < |w| ensures w[i].id < e.id {
        assert w[i] in w;
      }
    }
  }

  predicate Sorted(events: seq<Event>) {
    forall i, j :: 0 <= i < j < |events| ==> events[i].id < events[j].id
  }

  /** Later events do not change a window that ends before them. */
  lemma WindowStable(log: Log, more: Log, stream: Stream, f: Subjects, lo: int, hi: int)
    requires IdsOk(log + more) && hi <= |log|
    ensures Window(log + more, stream, f, lo, hi) == Window(log, stream, f, lo, hi)
  {
    WindowConcat(log, more, stream, f, lo, hi);
    forall e | e in more ensures e.id > |log| {
      var i :| 0 <= i < |more| && more[i] == e;
      assert (log + more)[|log| + i] == e;
    }
    WindowEmpty(more, stream, f, lo, hi);
  }

  lemma {:induction false} NextCursorSorted(after: int, page: seq<Event>)
    requires Sorted(page) && page != [] && page[0].id > after
    ensures NextCursor(after, page) == page[|page| - 1].id
  {
    if |page| == 1 {
      assert NextCursor(after, page[..0]) == after;
    } else {
      NextCursorSorted(after, page[..|page| - 1]);
    }
  }

  lemma InPart(low: seq<Event>, high: seq<Event>, i: nat)
    requires i < |low| + |high|
    ensures (low + high)[i] in if i < |low| then low else high
  {
  }

  /** A sorted sequence is cut in one way by a bound. */
  lemma PrefixUpTo(low: seq<Event>, high: seq<Event>, n: nat)
    requires 0 < n <= |low| + |high| && Sorted(low + high)
    requires forall e :: e in low ==> e.id <= (low + high)[n - 1].id
    requires forall e :: e in high ==> e.id > (low + high)[n - 1].id
    ensures |low| == n
  {
    InPart(low, high, n - 1);
    if n < |low| + |high| {
      InPart(low, high, n);
    }
  }

  /** What a page takes from the waiting events, and where it leaves the cursor. */
  lemma PageCursor(waiting: seq<Event>, after: int, n: nat)
    requires Sorted(waiting) && n > 0 && forall e :: e in waiting ==> e.id > after
    ensures var page := Take(waiting, n);
            page == [] <==> waiting == []
    ensures var page := Take(waiting, n);
            page <= waiting && |page| <= n && (|page| < n ==> page == waiting)
            && NextCursor(after, page) == if page == [] then after else waiting[|page| - 1].id
  {
    var page := Take(waiting, n);
    if page != [] {
      assert page[0] == waiting[0] && waiting[0] in waiting;
      NextCursorSorted(after, page);
    }
  }

  /** The waiting events up to the n-th are those up to its id. */
  lemma WindowCut(log: Log, stream: Stream, f: Subjects, lo: int, n: nat)
    requires IdsOk(log) && 0 < n <= |Window(log, stream, f, lo, |log|)|
    ensures var waiting := Window(log, stream, f, lo, |log|);
            var mid := waiting[n - 1].id;
            && lo < mid <= |log|
            && Window(log, stream, f, lo, mid) == waiting[..n]
            && Window(log, stream, f, mid, |log|) == waiting[n..]
  {
    var waiting := Window(log, stream, f, lo, |log|);
    var mid := waiting[n - 1].id;
    WindowSorted(log, stream, f, lo, |log|);
    WindowMembers(log, stream, f, lo, |log|);
    assert waiting[n - 1] in waiting;
    assert lo < mid <= |log|;
    WindowSplit(log, stream, f, lo, mid, |log|);
    var low, high := Window(log, stream, f, lo, mid), Window(log, stream, f, mid, |log|);
    assert (forall e :: e in low ==> e.id <= mid) && (forall e :: e in high ==> e.id > mid) by {
      WindowMembers(log, stream, f, lo, mid);
      WindowMembers(log, stream, f, mid, |log|);
      hide Window;
    }
    hide Window, Wanted, IdsOk;
    PrefixUpTo(low, high, n);
  }

  /** A page has as many events as wait, but no more than are asked for, than 1000, and at least one if any waits. */
  lemma PageSize(log: Log, stream: Stream, after: int, limit: int, f: Subjects)
    ensures var page, waiting := PollEvents(log, stream, after, limit, f), Window(log, stream, f, after, |log|);
            && page <= waiting
            && (limit <= 1 ==> |page| == if waiting == [] then 0 else 1)
            && (1 <= limit <= 1000 ==> |page| == if |waiting| <= limit then |waiting| else limit)
            && (1000 <= limit ==> |page| == if |waiting| <= 1000 then |waiting| else 1000)
  {
    hide Window;
  }

  lemma NothingBetween(log: Log, stream: Stream, f: Subjects, at: int)
    ensures Window(log, stream, f, at, at) == []
  {
    WindowEmpty(log, stream, f, at, at);
  }

  /** A page is exactly the events between its cursor and the next one, and it is empty only when no event waits. */
  lemma PageIsWindow(log: Log, stream: Stream, after: int, limit: int, f: Subjects)
    requires IdsOk(log)
    ensures var page, waiting := PollEvents(log, stream, after, limit, f), Window(log, stream, f, after, |log|);
            var next := NextCursor(after, page);
            && page == Window(log, stream, f, after, next)
            && waiting == page + Window(log, stream, f, next, |log|)
            && (page == [] <==> waiting == [])
            && (if page == [] then next == after else after < next <= |log|)
            && |page| <= Clamp(limit) && (|page| < Clamp(limit) ==> page == waiting)
  {
    hide Wanted, Window, NextCursor, Take, Clamp, IdsOk, Sorted;
    var waiting, page := Window(log, stream, f, after, |log|), PollEvents(log, stream, after, limit, f);
    WaitingSorted(log, stream, f, after);
    PageCursor(waiting, after, Clamp(limit));
    if page == [] {
      NothingBetween(log, stream, f, after);
      assert waiting == [] + waiting;
    } else {
      WindowCut(log, stream, f, after, |page|);
      assert waiting == waiting[..|page|] + waiting[|page|..];
    }
  }

  lemma WaitingSorted(log: Log, stream: Stream, f: Subjects, after: int)
    requires IdsOk(log)
    ensures var waiting := Window(log, stream, f, after, |log|);
            Sorted(waiting) && forall e :: e in waiting ==> e.id > after
  {
    WindowSorted(log, stream, f, after, |log|);
    WindowMembers(log, stream, f, after, |log|);
    hide Window, Sorted;
  }

  /* The paging endpoint, whose token is the cursor as text. */

  /** `sequence_token(value, default)` */
  function SequenceToken(value: Json, default': int): int {
    match value
    case JBool(b) => if b then 1 else 0
    case JInt(n) => if n < 0 then 0 else n
    case JStr(s) =>
      if Strip(s) == "" then default'
      else
        var n := ParseInt(Strip(s));
        if n.None? then default' else if n.value < 0 then 0 else n.value
    case _ => default'
  }

  /** What one request sees and asks for. */
  datatype Request = Request(log: Log, limit: int)

  function Page(r: Request, after: int): seq<Event> {
    PollEvents(r.log, EntityStream, after, r.limit, AnySubject)
  }

  /** The token a request returns. */
  function NextToken(r: Request, after: int): Json {
    JStr(PrintInt(NextCursor(after, Page(r, after))))
  }

  /** The events returned by requests that feed each token into the next one. */
  function Pages(requests: seq<Request>, token: Json, default': int): seq<Event> {
    if requests == [] then []
    else
      var after := SequenceToken(token, default');
      Page(requests[0], after) + Pages(requests[1..], NextToken(requests[0], after), default')
  }

  function LastToken(requests: seq<Request>, token: Json, default': int): Json {
    if requests == [] then token
    else LastToken(requests[1..], NextToken(requests[0], SequenceToken(token, default')), default')
  }

  /** The log only grows from one request to the next. */
  predicate Growing(requests: seq<Request>) {
    (forall i :: 0 <= i < |requests| ==> IdsOk(requests[i].log)) &&
    forall i :: 0 <= i < |requests| - 1 ==> requests[i].log <= requests[i + 1].log
  }

  /** Other tokens: a number is its own cursor, nothing and blank or unreadable text stand for the default. */
  lemma TokenOfEntry(n: int, s: string, default': int)
    ensures SequenceToken(JInt(n), default') == Floor(n) && SequenceToken(JNull, default') == default'
    ensures Strip(s) == "" || ParseInt(Strip(s)) == None ==> SequenceToken(JStr(s), default') == default'
  {
  }

  lemma TokenIsCursor(n: int, default': int)
    ensures SequenceToken(JStr(PrintInt(n)), default') == Floor(n)
  {
    ParsePrintedInt(n);
  }

  /** No event has an id below 1. */
  lemma NoNegativeIds(log: Log, stream: Stream, f: Subjects, lo: int, hi: int)
    requires IdsOk(log)
    ensures Window(log, stream, f, lo, hi) == Window(log, stream, f, Floor(lo), Floor(hi))
  {
    forall e | e in log ensures e.id > 0 {
      var i :| 0 <= i < |log| && log[i] == e;
    }
    SameEvents(log, stream, f, lo, hi, Floor(lo), Floor(hi));
  }

  function Floor(n: int): nat {
    if n < 0 then 0 else n
  }

  lemma {:induction false} SameEvents(log: Log, stream: Stream, f: Subjects, lo: int, hi: int, lo': int, hi': int)
    requires forall e :: e in log ==> (Wanted(e, stream, f, lo, hi) <==> Wanted(e, stream, f, lo', hi'))
    ensures Window(log, stream, f, lo, hi) == Window(log, stream, f, lo', hi')
  {
    hide Wanted;
    if log == [] {
    } else {
      assert log == log[..|log| - 1] + [log[|log| - 1]];
      SameEvents(log[..|log| - 1], stream, f, lo, hi, lo', hi');
    }
  }

  lemma {:induction false} LastLogGrows(requests: seq<Request>)
    requires requests != [] && Growing(requests)
    ensures requests[0].log <= requests[|requests| - 1].log
  {
    if |requests| == 1 {
    } else {
      assert forall i :: 0 <= i < |requests[1..]| ==> requests[1..][i] == requests[i + 1];
      LastLogGrows(requests[1..]);
    }
  }

  /** A page is the same window of every later log. */
  lemma PageOfLater(r: Request, later: Log, after: int)
    requires IdsOk(later) && r.log <= later
    ensures var next := NextCursor(after, Page(r, after));
            Page(r, after) == Window(later, EntityStream, AnySubject, after, next) && after <= next
  {
    assert forall i :: 0 <= i < |r.log| ==> r.log[i] == later[i];
    var next := NextCursor(after, Page(r, after));
    PageIsWindow(r.log, EntityStream, after, r.limit, AnySubject);
    SameWindow(r.log, later, EntityStream, AnySubject, after, next);
  }

  /** Paging loses nothing and repeats nothing: whatever the limits, and whatever is written between the requests,
      the pages together are the events from the first cursor to the last. */
  lemma {:induction false} PagesCover(requests: seq<Request>, token: Json, default': int)
    requires requests != [] && Growing(requests)
    ensures var first, last := SequenceToken(token, default'), LastToken(requests, token, default');
            && Pages(requests, token, default') ==
               Window(requests[|requests| - 1].log, EntityStream, AnySubject, first, SequenceToken(last, default'))
            && Floor(first) <= SequenceToken(last, default')
    decreases |requests|
  {
    hide Window, Page, NextCursor, SequenceToken;
    var r, rest := requests[0], requests[1..];
    var after := SequenceToken(token, default');
    var next := NextCursor(after, Page(r, after));
    var final := requests[|requests| - 1].log;
    LastLogGrows(requests);
    PageOfLater(r, final, after);
    TokenIsCursor(next, default');
    NoNegativeIds(final, EntityStream, AnySubject, after, next);
    if rest == [] {
      NoNegativeIds(final, EntityStream, AnySubject, after, Floor(next));
    } else {
      var last := SequenceToken(LastToken(requests, token, default'), default');
      assert Growing(rest) by {
        assert forall i :: 0 <= i < |rest| ==> rest[i] == requests[i + 1];
      }
      PagesCover(rest, NextToken(r, after), default');
      WindowSplit(final, EntityStream, AnySubject, Floor(after), Floor(next), last);
      NoNegativeIds(final, EntityStream, AnySubject, after, last);
    }
  }

  function Repeat(r: Request, n: nat): seq<Request> {
    if n == 0 then [] else [r] + Repeat(r, n - 1)
  }

  function Waiting(log: Log, token: Json, default': int): seq<Event> {
    Window(log, EntityStream, AnySubject, SequenceToken(token, default'), |log|)
  }

  /** One request takes its page off the waiting events. */
  lemma DrainStep(log: Log, limit: int, token: Json, default': int, rest: seq<Request>)
    requires IdsOk(log)
    ensures var r := Request(log, limit);
            var page, token' := Page(r, SequenceToken(token, default')), NextToken(r, SequenceToken(token, default'));
            && Pages([r] + rest, token, default') == page + Pages(rest, token', default')
            && Waiting(log, token, default') == page + Waiting(log, token', default')
            && (|page| < Clamp(limit) ==> Waiting(log, token', default') == [])
  {
    var after, r := SequenceToken(token, default'), Request(log, limit);
    var next := NextCursor(after, Page(r, after));
    PageIsWindow(log, EntityStream, after, limit, AnySubject);
    TokenIsCursor(next, default');
    NoNegativeIds(log, EntityStream, AnySubject, next, |log|);
    hide Window, PollEvents, NextCursor, SequenceToken, Clamp, IdsOk;
    assert ([r] + rest)[1..] == rest;
  }

  /** With no writes in between, the waiting events are all returned once the requests have room for them. */
  lemma {:induction false} BacklogDrains(log: Log, limit: int, requests: nat, token: Json, default': int)
    requires IdsOk(log)
    requires |Waiting(log, token, default')| <= requests * Clamp(limit)
    ensures Pages(Repeat(Request(log, limit), requests), token, default') == Waiting(log, token, default')
    decreases requests
  {
    hide Waiting, IdsOk, Clamp, NextToken, SequenceToken;
    if requests == 0 {
    } else {
      var r := Request(log, limit);
      DrainStep(log, limit, token, default', Repeat(r, requests - 1));
      hide Pages, Page;
      assert (requests - 1) * Clamp(limit) == requests * Clamp(limit) - Clamp(limit);
      BacklogDrains(log, limit, requests - 1, NextToken(r, SequenceToken(token, default')), default');
    }
  }

  /** The rows that a stream's filter lets through. */
  function Chosen(events: seq<Event>, keep: Event -> bool): seq<Event> {
    if events == [] then []
    else
      var e := events[|events| - 1];
      Chosen(events[..|events| - 1], keep) + if keep(e) then [e] else []
  }

  lemma {:induction false} ChosenConcat(a: seq<Event>, b: seq<Event>, keep: Event -> bool)
    ensures Chosen(a + b, keep) == Chosen(a, keep) + Chosen(b, keep)
  {
    if b == [] {
      assert a + b == a;
    } else {
      assert (a + b)[..|a + b| - 1] == a + b[..|b| - 1];
      ChosenConcat(a, b[..|b| - 1], keep);
    }
  }

  lemma {:induction false} MaxEventIdBounds(log: Log, stream: Stream)
    ensures forall e :: e in log && e.stream == stream ==> e.id <= MaxEventId(log, stream)
  {
    if log == [] {
    } else {
      assert log == log[..|log| - 1] + [log[|log| - 1]];
      MaxEventIdBounds(log[..|log| - 1], stream);
    }
  }

  /** A cursor opened at the stream's last event waits for exactly the events logged later. */
  lemma OpensAtEnd(opening: Log, log: Log, stream: Stream, f: Subjects, hi: int)
    requires IdsOk(log) && opening <= log
    ensures MaxEventId(opening, stream) <= |opening|
    ensures Window(log, stream, f, MaxEventId(opening, stream), hi) == Window(log, stream, f, |opening|, hi)
  {
    MaxEventIdBounds(opening, stream);
    var start := MaxEventId(opening, stream);
    assert forall i :: 0 <= i < |opening| ==> opening[i] == log[i];
    hide MaxEventId;
    forall e | e in log && e.stream == stream ensures start < e.id <==> |opening| < e.id {
      var i :| 0 <= i < |log| && log[i] == e;
      assert i < |opening| ==> e in opening;
    }
    SameEvents(log, stream, f, start, hi, |opening|, hi);
  }

  /** The cursor of a stream after its rounds, each of which sees the log as it is by then. */
  function FollowCursor(logs: seq<Log>, stream: Stream, f: Subjects, start: int): int {
    if logs == [] then start
    else
      var before := FollowCursor(logs[..|logs| - 1], stream, f, start);
      NextCursor(before, PollEvents(logs[|logs| - 1], stream, before, 100, f))
  }

  lemma FollowPush(logs: seq<Log>, log: Log, stream: Stream, f: Subjects, start: int)
    ensures var before := FollowCursor(logs, stream, f, start);
            FollowCursor(logs + [log], stream, f, start) == NextCursor(before, PollEvents(log, stream, before, 100, f))
  {
    assert (logs + [log])[..|logs|] == logs;
  }

  /** Every round makes progress: it moves the cursor over 100 rows, or leaves nothing waiting. */
  lemma RoundProgress(logs: seq<Log>, log: Log, stream: Stream, f: Subjects, start: int)
    requires IdsOk(log)
    ensures var before, after := FollowCursor(logs, stream, f, start), FollowCursor(logs + [log], stream, f, start);
            && before <= after
            && Window(log, stream, f, before, |log|)
               == Window(log, stream, f, before, after) + Window(log, stream, f, after, |log|)
            && (|Window(log, stream, f, before, after)| == 100 || Window(log, stream, f, after, |log|) == [])
  {
    hide Window, PollEvents, NextCursor, IdsOk, FollowCursor;
    FollowPush(logs, log, stream, f, start);
    PageIsWindow(log, stream, FollowCursor(logs, stream, f, start), 100, f);
  }

  function Again(log: Log, rounds: nat): seq<Log> {
    if rounds == 0 then [] else Again(log, rounds - 1) + [log]
  }

  /** Once the log stands still, the stream catches up: with n events waiting, ceil(n / 100) more rounds leave
      nothing behind the cursor. */
  lemma {:induction false} FollowDrains(
      logs: seq<Log>, log: Log, rounds: nat, stream: Stream, f: Subjects, start: int)
    requires IdsOk(log)
    ensures var waiting := Window(log, stream, f, FollowCursor(logs, stream, f, start), |log|);
            var left := Window(log, stream, f, FollowCursor(logs + Again(log, rounds), stream, f, start), |log|);
            |left| <= if |waiting| <= 100 * rounds then 0 else |waiting| - 100 * rounds
  {
    hide Window, FollowCursor, IdsOk;
    if rounds == 0 {
      assert logs + Again(log, 0) == logs;
    } else {
      FollowDrains(logs, log, rounds - 1, stream, f, start);
      RoundProgress(logs + Again(log, rounds - 1), log, stream, f, start);
      assert logs + Again(log, rounds) == logs + Again(log, rounds - 1) + [log];
    }
  }

  /** The live phase of a stream: open the cursor at the last event, then poll, move the cursor over each row, and
      send the rows the filter lets through. The cursor is where the rounds bring it, and what was sent, followed by
      what still waits, is every such event logged after the opening, once and in order. */
  method FollowStream(opening: Log, logs: seq<Log>, stream: Stream, f: Subjects, keep: Event -> bool)
      returns (sent: seq<Event>, cursor: int)
    requires forall i :: 0 <= i < |logs| ==> IdsOk(logs[i]) && opening <= logs[i]
    requires forall i, j :: 0 <= i < j < |logs| ==> logs[i] <= logs[j]
    ensures logs == [] ==> sent == []
    ensures cursor == FollowCursor(logs, stream, f, MaxEventId(opening, stream))
    ensures logs != [] ==>
              var log := logs[|logs| - 1];
              && sent == Chosen(Window(log, stream, f, |opening|, cursor), keep)
              && Chosen(Window(log, stream, f, |opening|, |log|), keep)
                 == sent + Chosen(Window(log, stream, f, cursor, |log|), keep)
  {
    var start := MaxEventId(opening, stream);
    sent, cursor := [], start;
    hide Window, PollEvents, Sorted, IdsOk, MaxEventId, FollowCursor;
    assert FollowCursor([], stream, f, start) == start by {
      FollowNothing(stream, f, start);
    }
    for i := 0 to |logs|
      invariant start <= cursor == FollowCursor(logs[..i], stream, f, start)
      invariant i == 0 ==> sent == [] && cursor == start
      invariant i > 0 ==> sent == Chosen(Window(logs[i - 1], stream, f, start, cursor), keep)
      invariant i > 0 ==> cursor == start || cursor <= |logs[i - 1]|
    {
      var more, next := SendPage(logs[i], stream, f, cursor, keep);
      assert logs[..i + 1] == logs[..i] + [logs[i]];
      FollowPush(logs[..i], logs[i], stream, f, start);
      PageIsWindow(logs[i], stream, cursor, 100, f);
      if i > 0 {
        SameWindow(logs[i - 1], logs[i], stream, f, start, cursor);
      } else {
        NothingBetween(logs[i], stream, f, start);
      }
      SentSoFar(logs[i], stream, f, start, cursor, next, keep);
      sent, cursor := sent + more, next;
    }
    assert logs[..|logs|] == logs;
    if logs != [] {
      var log := logs[|logs| - 1];
      OpensAtEnd(opening, log, stream, f, cursor);
      OpensAtEnd(opening, log, stream, f, |log|);
      SentSoFar(log, stream, f, start, cursor, |log|, keep);
    }
  }

  lemma FollowNothing(stream: Stream, f: Subjects, start: int)
    ensures FollowCursor([], stream, f, start) == start
  {
  }

  lemma SentSoFar(log: Log, stream: Stream, f: Subjects, lo: int, mid: int, hi: int, keep: Event -> bool)
    requires IdsOk(log) && lo <= mid <= hi
    ensures Chosen(Window(log, stream, f, lo, hi), keep)
            == Chosen(Window(log, stream, f, lo, mid), keep) + Chosen(Window(log, stream, f, mid, hi), keep)
  {
    hide Window, Chosen;
    WindowSplit(log, stream, f, lo, mid, hi);
    ChosenConcat(Window(log, stream, f, lo, mid), Window(log, stream, f, mid, hi), keep);
  }

  /** One round: the rows that are sent, and the cursor after them. */
  method SendPage(log: Log, stream: Stream, f: Subjects, after: int, keep: Event -> bool)
      returns (sent: seq<Event>, cursor: int)
    ensures sent == Chosen(PollEvents(log, stream, after, 100, f), keep)
    ensures cursor == NextCursor(after, PollEvents(log, stream, after, 100, f))
  {
    var rows := PollEvents(log, stream, after, 100, f);
    sent, cursor := [], after;
    hide PollEvents;
    for j := 0 to |rows|
      invariant cursor == NextCursor(after, rows[..j])
      invariant sent == Chosen(rows[..j], keep)
    {
      assert rows[..j + 1][..j] == rows[..j];
      cursor := if rows[j].id > cursor then rows[j].id else cursor;
      if keep(rows[j]) {
        sent := sent + [rows[j]];
      }
    }
    assert rows[..|rows|] == rows;
  }

  lemma SameWindow(log: Log, grown: Log, stream: Stream, f: Subjects, lo: int, hi: int)
    requires IdsOk(grown) && log <= grown && (hi <= |log| || lo == hi)
    ensures Window(log, stream, f, lo, hi) == Window(grown, stream, f, lo, hi)
  {
    assert grown == log + grown[|log|..];
    if hi <= |log| {
      WindowStable(log, grown[|log|..], stream, f, lo, hi);
    } else {
      WindowEmpty(log, stream, f, lo, hi);
      WindowEmpty(grown, stream, f, lo, hi);
    }
  }
}
