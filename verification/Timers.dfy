/** The software clock, the queue of timed events, and cyclic starts. */
module Timers {
  import opened Tasks

  /* ---- When a cyclic handler starts next. ---- */

  /** `cyc_next_time`: the start after `time`, for a handler of period `cyctim`. */
  function NextTime(time: int, cyctim: int, now: int): int
    requires cyctim > 0
  {
    if time + cyctim > now then time + cyctim
    else time + ((now - time) / cyctim + 1) * cyctim
  }

  /** `tm` is a start of the series of period `cyctim` that `time` belongs to. */
  ghost predicate InSeries(tm: int, time: int, cyctim: int) {
    exists k: int :: tm == time + Times(k, cyctim)
  }

  function Times(k: int, cyctim: int): int {
    k * cyctim
  }

  /** The first start of the series after `now`. */
  ghost predicate FirstAfter(tm: int, time: int, cyctim: int, now: int) {
    InSeries(tm, time, cyctim) && tm > now && forall t: int :: InSeries(t, time, cyctim) && t > now ==> tm <= t
  }

  lemma QuotientBounds(d: int, c: int)
    requires d >= 0 && c > 0
    ensures Times(d / c, c) <= d < Times(d / c + 1, c)
  {
  }

  lemma TimesGrows(j: int, k: int, c: int)
    requires c > 0 && j < k
    ensures Times(j, c) + c <= Times(k, c)
  {
    var m := k - j - 1;
    assert m * c >= 0;
    assert k * c == (j + 1 + m) * c == j * c + c + m * c;
  }

  /** The next start is in the series, after both `now` and the last one. */
  lemma NextTimeIsLater(time: int, cyctim: int, now: int)
    requires cyctim > 0
    ensures var tm := NextTime(time, cyctim, now); tm > now && tm > time && InSeries(tm, time, cyctim)
  {
    if time + cyctim > now {
      assert time + cyctim == time + Times(1, cyctim);
    } else {
      QuotientBounds(now - time, cyctim);
      var k := (now - time) / cyctim + 1;
      assert NextTime(time, cyctim, now) == time + Times(k, cyctim);
    }
  }

  /** It is the first start of the series after both `now` and the last one: after `now`, if and
      only if the last one is not itself still to come, as it is when a handler is started at
      once. */
  lemma NextTimeIsFirst(time: int, cyctim: int, now: int)
    requires cyctim > 0
    ensures FirstAfter(NextTime(time, cyctim, now), time, cyctim, if time > now then time else now)
    ensures FirstAfter(NextTime(time, cyctim, now), time, cyctim, now) <==> time <= now
  {
    var tm, from := NextTime(time, cyctim, now), if time > now then time else now;
    NextTimeIsLater(time, cyctim, now);
    var n := if time + cyctim > now then 1 else (now - time) / cyctim + 1;
    if time + cyctim <= now {
      QuotientBounds(now - time, cyctim);
    }
    assert tm == time + Times(n, cyctim) && Times(n - 1, cyctim) <= from - time;
    forall t: int | InSeries(t, time, cyctim) && t > from ensures tm <= t {
      var k: int :| t == time + Times(k, cyctim);
      if k < n - 1 {
        TimesGrows(k, n - 1, cyctim);
      } else if n < k {
        TimesGrows(n, k, cyctim);
      }
    }
    if time > now {
      assert time == time + Times(0, cyctim);
      assert InSeries(time, time, cyctim) && tm > time;
    }
  }

  /** The starts of a handler whose event comes up at the times `nows`, one after the other. */
  function Starts(time: int, cyctim: int, nows: seq<int>): seq<int>
    requires cyctim > 0
    decreases |nows|
  {
    if nows == [] then [time] else [time] + Starts(NextTime(time, cyctim, nows[0]), cyctim, nows[1..])
  }

  /** Over any run, however late the events come up, all starts stay in the series of the
      first: a handler never drifts. */
  lemma {:induction false} NeverDrifts(time: int, cyctim: int, nows: seq<int>, i: nat)
    requires cyctim > 0 && i < |Starts(time, cyctim, nows)|
    ensures InSeries(Starts(time, cyctim, nows)[i], time, cyctim) && Starts(time, cyctim, nows)[i] >= time
    ensures 0 < i <= |nows| ==> Starts(time, cyctim, nows)[i] > nows[i - 1]
    decreases |nows|
  {
    if i == 0 {
      assert time == time + Times(0, cyctim);
    } else {
      var tm := NextTime(time, cyctim, nows[0]);
      NextTimeIsLater(time, cyctim, nows[0]);
      NeverDrifts(tm, cyctim, nows[1..], i - 1);
      var s := Starts(tm, cyctim, nows[1..])[i - 1];
      var j: int :| s == tm + Times(j, cyctim);
      var k: int :| tm == time + Times(k, cyctim);
      assert Times(j, cyctim) + Times(k, cyctim) == Times(j + k, cyctim);
    }
  }

  /* ---- The queue. ---- */

  /** An event: what is to be called, when, and the number of its registration. */
  datatype Event = Event(what: nat, time: int, no: nat)

  /** Earlier, or registered earlier for the same time. */
  predicate Before(a: Event, b: Event) {
    a.time < b.time || (a.time == b.time && a.no < b.no)
  }

  ghost predicate InOrder(q: seq<Event>) {
    forall i, k :: 0 <= i < k < |q| ==> Before(q[i], q[k])
  }

  lemma Ordered(q: seq<Event>, i: nat, k: nat)
    requires InOrder(q) && i < k < |q|
    ensures Before(q[i], q[k])
  {
  }

  lemma OrderIs(q: seq<Event>)
    requires forall i, k :: 0 <= i < k < |q| ==> Before(q[i], q[k])
    ensures InOrder(q)
  {
  }

  lemma PutIn(q: seq<Event>, at: nat, e: Event)
    requires at <= |q|
    ensures forall f :: f in q[..at] + [e] + q[at..] <==> f in q || f == e
  {
    assert q == q[..at] + q[at..];
  }

  /** The latest registration goes behind all that are no later and before all that are. */
  lemma PutInOrder(q: seq<Event>, at: nat, e: Event)
    requires InOrder(q) && at <= |q| && (forall i :: 0 <= i < |q| ==> q[i].no < e.no)
    requires (forall i :: 0 <= i < at ==> q[i].time <= e.time) && (at < |q| ==> e.time < q[at].time)
    ensures InOrder(q[..at] + [e] + q[at..])
  {
    hide InOrder;
    var r := q[..at] + [e] + q[at..];
    forall i, k | 0 <= i < k < |r| ensures Before(r[i], r[k]) {
      if i != at && k != at {
        Ordered(q, if i < at then i else i - 1, if k < at then k else k - 1);
      } else if i == at && k > at + 1 {
        Ordered(q, at, k - 1);
      }
    }
    OrderIs(r);
  }

  lemma TakenOut(q: seq<Event>, at: nat)
    requires InOrder(q) && at < |q|
    ensures var r := q[..at] + q[at + 1..]; InOrder(r) && forall f :: f in r <==> f in q && f != q[at]
  {
    hide InOrder;
    var r := q[..at] + q[at + 1..];
    forall i, k | 0 <= i < k < |r| ensures Before(r[i], r[k]) {
      Ordered(q, if i < at then i else i + 1, if k < at then k else k + 1);
    }
    OrderIs(r);
    forall f | f in q && f != q[at] ensures f in r {
      var i :| 0 <= i < |q| && q[i] == f;
      assert r[if i < at then i else i - 1] == f;
    }
    forall f | f in r ensures f in q && f != q[at] {
      var i :| 0 <= i < |r| && r[i] == f;
      Ordered(q, if i < at then i else at, if i < at then at else i + 1);
    }
  }

  lemma FirstIsEarliest(q: seq<Event>)
    requires InOrder(q) && q != []
    ensures InOrder(q[1..]) && forall e :: e in q[1..] ==> Before(q[0], e)
  {
  }

  /** What a registration was for: a delay from a moment on, or a moment. */
  datatype Asked = Timeout(at: int, tmout: nat) | Moment(time: int)

  /** The time at which it comes up. */
  function DueAt(a: Asked, period: int): int {
    match a
    case Timeout(at, tmout) => at + tmout + period
    case Moment(time) => time
  }

  /** What a callback does to the queue: it takes back a registration, sets a timeout, or
      registers a later moment. */
  datatype Act = Stop(no: nat) | Start(what: nat, tmout: nat) | StartAt(what: nat, time: int)

  /** The queue, as a set, and the number of registrations. */
  datatype Pending = Pending(events: set<Event>, count: nat)

  /** What one act makes of them at time `now`. */
  function ActedOnce(s: Pending, act: Act, now: int, period: int): Pending {
    match act
    case Stop(no) => s.(events := set e | e in s.events && e.no != no)
    case Start(what, tmout) => Pending(s.events + {Event(what, now + tmout + period, s.count)}, s.count + 1)
    case StartAt(what, time) => Pending(s.events + {Event(what, time, s.count)}, s.count + 1)
  }

  /** What the acts of a callback make of them, one after the other. */
  function Acted(s: Pending, acts: seq<Act>, now: int, period: int): Pending {
    if acts == [] then s
    else ActedOnce(Acted(s, acts[..|acts| - 1], now, period), acts[|acts| - 1], now, period)
  }

  lemma ActedMore(s: Pending, acts: seq<Act>, i: nat, now: int, period: int)
    requires i < |acts|
    ensures Acted(s, acts[..i + 1], now, period) == ActedOnce(Acted(s, acts[..i], now, period), acts[i], now, period)
  {
    assert acts[..i + 1][..i] == acts[..i];
  }

  function EventsOf(q: seq<Event>): (s: set<Event>)
    ensures forall e :: e in s <==> e in q
  {
    set e | e in q
  }

  /** One turn of the drain: the first event was due, it was taken out, and its callback acted. */
  ghost predicate OneTurn(s: Pending, s': Pending, f: Event, acts: seq<Act>, now: int, period: int) {
    && f in s.events && f.time <= now && (forall e :: e in s.events && e != f ==> Before(f, e))
    && s' == Acted(s.(events := s.events - {f}), acts, now, period)
  }

  function CallOf(calls: seq<seq<Act>>, k: nat): seq<Act> {
    if k < |calls| then calls[k] else []
  }

  /** The turns of the drain, from `s` to `s'`. */
  ghost predicate Turns(ss: seq<Pending>, s: Pending, s': Pending, fired: seq<Event>, calls: seq<seq<Act>>, now: int,
                        period: int) {
    && |ss| == |fired| + 1 && ss[0] == s && ss[|fired|] == s'
    && forall k :: 0 <= k < |fired| ==> OneTurn(ss[k], ss[k + 1], fired[k], CallOf(calls, k), now, period)
  }

  ghost predicate SomeTurns(s: Pending, s': Pending, fired: seq<Event>, calls: seq<seq<Act>>, now: int, period: int) {
    exists ss :: Turns(ss, s, s', fired, calls, now, period)
  }

  lemma NoTurn(s: Pending, calls: seq<seq<Act>>, now: int, period: int)
    ensures SomeTurns(s, s, [], calls, now, period)
  {
    assert Turns([s], s, s, [], calls, now, period);
  }

  lemma OneMoreTurn(s: Pending, s1: Pending, s2: Pending, fired: seq<Event>, f: Event, calls: seq<seq<Act>>, now: int,
                    period: int)
    requires SomeTurns(s, s1, fired, calls, now, period) && OneTurn(s1, s2, f, CallOf(calls, |fired|), now, period)
    ensures SomeTurns(s, s2, fired + [f], calls, now, period)
  {
    hide OneTurn, CallOf;
    var ss :| Turns(ss, s, s1, fired, calls, now, period);
    assert Turns(ss + [s2], s, s2, fired + [f], calls, now, period);
  }

  lemma TurnIs(q: seq<Event>, count: nat, s': Pending, acts: seq<Act>, now: int, period: int)
    requires InOrder(q) && q != [] && q[0].time <= now
    requires s' == Acted(Pending(EventsOf(q[1..]), count), acts, now, period)
    ensures OneTurn(Pending(EventsOf(q), count), s', q[0], acts, now, period)
  {
    FirstIsEarliest(q);
    assert q == [q[0]] + q[1..];
    assert q[0] !in q[1..];
    assert EventsOf(q) - {q[0]} == EventsOf(q[1..]);
  }

  ghost predicate AllLater(acts: seq<Act>, now: int) {
    forall i :: 0 <= i < |acts| && acts[i].StartAt? ==> acts[i].time > now
  }

  /** The events of `q` that are due. */
  ghost function DueIn(q: seq<Event>, now: int): set<Event> {
    set e | e in q && e.time <= now
  }

  /** From queue `q` to queue `q'` some events were taken back and, with numbers from `count`
      on, some later ones registered. */
  ghost predicate Moved(q: seq<Event>, q': seq<Event>, stopped: seq<Event>, count: nat, now: int) {
    && (forall e :: e in q ==> e in q' || e in stopped)
    && (forall e :: e in stopped ==> e !in q' && (e in q || e.no >= count))
    && (forall e :: e in q' ==> e in q || (e.no >= count && e.time > now))
  }

  lemma MovedTwice(q: seq<Event>, q1: seq<Event>, q2: seq<Event>, s1: seq<Event>, s2: seq<Event>, c: nat, c1: nat,
                   now: int)
    requires Moved(q, q1, s1, c, now) && Moved(q1, q2, s2, c1, now) && c <= c1
    requires forall e :: e in s1 ==> e.no < c1
    ensures Moved(q, q2, s1 + s2, c, now)
  {
  }

  /** The drain so far: of queue `q`, what has been called is due, in order, and earlier than
      all that is queued still; nothing is lost, and nothing was called after it was taken
      back. */
  ghost predicate Drained(q: seq<Event>, q': seq<Event>, fired: seq<Event>, stopped: seq<Event>, count: nat, now: int) {
    && (forall e :: e in q ==> e in fired || e in q' || e in stopped)
    && (forall e :: e in fired ==> e in q && e.time <= now && e !in q' && e !in stopped)
    && (forall e :: e in stopped ==> e !in q' && (e in q || e.no >= count))
    && (forall e :: e in q' ==> e in q || (e.no >= count && e.time > now))
    && InOrder(fired) && (forall f, e :: f in fired && e in q' ==> Before(f, e))
  }

  lemma CalledOne(q: seq<Event>, q1: seq<Event>, q2: seq<Event>, fired: seq<Event>, stopped: seq<Event>, s: seq<Event>,
                  count: nat, c1: nat, now: int)
    requires Drained(q, q1, fired, stopped, count, now) && InOrder(q1) && q1 != [] && q1[0].time <= now && count <= c1
    requires Moved(q1[1..], q2, s, c1, now)
    requires forall e :: e in q || e in q1 || e in stopped ==> e.no < c1
    ensures Drained(q, q2, fired + [q1[0]], stopped + s, count, now)
    ensures DueIn(q2, now) < DueIn(q1, now)
  {
    var f := q1[0];
    hide InOrder;
    FirstIsEarliest(q1);
    assert q1 == [f] + q1[1..];
    assert f in q1 && f !in q1[1..];
    FiredInOrder(fired, f);
    assert f in DueIn(q1, now) && f !in q2;
  }

  lemma FiredInOrder(fired: seq<Event>, f: Event)
    requires InOrder(fired) && forall e :: e in fired ==> Before(e, f)
    ensures InOrder(fired + [f])
  {
  }

  const TMO_FEVR := -1

  class Timer {
    const period: int
    var current_time: int
    var queue: seq<Event>
    /** Registrations so far, and what each was for. */
    var count: nat
    ghost var log: seq<Asked>

    /** The queue is in order and each event comes up when it was asked to. */
    ghost predicate Registered()
      reads this
    {
      && period > 0 && InOrder(queue) && |log| == count
      && forall e :: e in queue ==> e.no < count && e.time == DueAt(log[e.no], period)
    }

    /** Between two ticks nothing that is queued is due. */
    ghost predicate Valid()
      reads this
    {
      Registered() && forall e :: e in queue ==> e.time > current_time
    }

    constructor (period: int)
      requires period > 0
      ensures Valid() && current_time == 0 && queue == [] && this.period == period && log == []
    {
      this.period := period;
      current_time, queue, count, log := 0, [], 0, [];
    }

    /** `enqueue_tmeb`. */
    method Enqueue(what: nat, time: int, ghost a: Asked)
      requires Registered() && DueAt(a, period) == time
      modifies this`queue, this`count, this`log
      ensures Registered() && log == old(log) + [a] && count == old(count) + 1
      ensures exists i :: 0 <= i <= |old(queue)|
                && queue == old(queue)[..i] + [Event(what, time, old(count))] + old(queue)[i..]
      ensures forall e :: e in queue <==> e in old(queue) || e == Event(what, time, old(count))
    {
      hide InOrder, Before;
      var q := 0;
      while q < |queue|
        invariant q <= |queue| && forall i :: 0 <= i < q ==> queue[i].time <= time
      {
        if time < queue[q].time {
          break;
        }
        q := q + 1;
      }
      PutIn(queue, q, Event(what, time, count));
      PutInOrder(queue, q, Event(what, time, count));
      queue := queue[..q] + [Event(what, time, count)] + queue[q..];
      count, log := count + 1, log + [a];
    }

    /** `timer_insert`: the period is added so that nobody waits less than asked for; a wait
        for ever needs no event. */
    method Insert(what: nat, tmout: int)
      requires Registered() && tmout >= TMO_FEVR
      modifies this`queue, this`count, this`log
      ensures Registered() && old(log) <= log && old(count) <= count && (old(Valid()) ==> Valid())
      ensures tmout == TMO_FEVR ==> queue == old(queue) && log == old(log)
      ensures tmout != TMO_FEVR ==>
                && log == old(log) + [Timeout(current_time, tmout)]
                && forall e :: e in queue <==>
                     e in old(queue) || e == Event(what, current_time + tmout + period, old(count))
    {
      if tmout != TMO_FEVR {
        Enqueue(what, current_time + tmout + period, Timeout(current_time, tmout));
      }
    }

    /** `timer_insert_abs`. */
    method InsertAbs(what: nat, time: int)
      requires Registered()
      modifies this`queue, this`count, this`log
      ensures Registered() && log == old(log) + [Moment(time)] && old(count) <= count
      ensures old(Valid()) && time > current_time ==> Valid()
      ensures forall e :: e in queue <==> e in old(queue) || e == Event(what, time, old(count))
    {
      Enqueue(what, time, Moment(time));
    }

    /** `timer_delete` of the event with number `no`, if it is queued. */
    method Delete(no: nat) returns (stopped: seq<Event>)
      requires Registered()
      modifies this`queue
      ensures Registered() && (old(Valid()) ==> Valid())
      ensures forall e :: e in stopped <==> e in old(queue) && e.no == no
      ensures forall e :: e in queue <==> e in old(queue) && e.no != no
    {
      hide InOrder, Before;
      var i := 0;
      while i < |queue| && queue[i].no != no
        invariant i <= |queue| && forall k :: 0 <= k < i ==> queue[k].no != no
      {
        i := i + 1;
      }
      if i == |queue| {
        return [];
      }
      OnlyOne(i);
      TakenOut(queue, i);
      stopped := [queue[i]];
      queue := queue[..i] + queue[i + 1..];
    }

    /** No number is queued twice. */
    lemma OnlyOne(i: nat)
      requires Registered() && i < |queue|
      ensures forall e :: e in queue && e.no == queue[i].no ==> e == queue[i]
    {
      hide InOrder;
      forall e | e in queue && e.no == queue[i].no ensures e == queue[i] {
        var k :| 0 <= k < |queue| && queue[k] == e;
        assert queue[i] in queue;
        if k < i {
          Ordered(queue, k, i);
        } else if i < k {
          Ordered(queue, i, k);
        }
      }
    }

    /** A callback at work. */
    method Serve(acts: seq<Act>) returns (stopped: seq<Event>)
      requires Registered() && AllLater(acts, current_time)
      modifies this`queue, this`count, this`log
      ensures Registered() && old(log) <= log && old(count) <= count
      ensures Moved(old(queue), queue, stopped, old(count), current_time)
      ensures forall e :: e in stopped ==> e.no < count
      ensures Pending(EventsOf(queue), count) ==
              Acted(Pending(EventsOf(old(queue)), old(count)), acts, current_time, period)
    {
      hide InOrder, Before, Acted;
      stopped := [];
      ghost var s0 := Pending(EventsOf(queue), count);
      NotActed(s0, acts, current_time, period);
      var i := 0;
      while i < |acts|
        invariant i <= |acts| && Registered() && old(log) <= log && old(count) <= count
        invariant Moved(old(queue), queue, stopped, old(count), current_time)
        invariant forall e :: e in stopped ==> e.no < count
        invariant Pending(EventsOf(queue), count) == Acted(s0, acts[..i], current_time, period)
      {
        ghost var q, c := queue, count;
        ActedMore(s0, acts, i, current_time, period);
        var s := [];
        match acts[i] {
          case Stop(no) => s := Delete(no);
          case Start(what, tmout) => Insert(what, tmout);
          case StartAt(what, time) => InsertAbs(what, time);
        }
        MovedTwice(old(queue), q, queue, stopped, s, old(count), c, current_time);
        assert EventsOf(queue) == ActedOnce(Pending(EventsOf(q), c), acts[i], current_time, period).events;
        stopped := stopped + s;
        i := i + 1;
      }
      assert acts[..i] == acts;
    }

    /** `timer_handler`: the clock goes on, and the first event is taken out and called as long
        as it is due.  The callbacks, `calls` one after the other, may take back events that
        are due as well, and register later ones. */
    method Tick(calls: seq<seq<Act>>) returns (fired: seq<Event>, stopped: seq<Event>)
      requires Valid() && forall i :: 0 <= i < |calls| ==> AllLater(calls[i], current_time + period)
      modifies this`current_time, this`queue, this`count, this`log
      ensures Valid() && current_time == old(current_time) + period && old(log) <= log
      ensures SomeTurns(Pending(EventsOf(old(queue)), old(count)), Pending(EventsOf(queue), count), fired, calls,
                        current_time, period)
      ensures Drained(old(queue), queue, fired, stopped, old(count), current_time)
      ensures forall e :: e in fired ==> old(current_time) < e.time <= current_time
      ensures forall e :: e in fired ==> e.no < |log| && current_time >= DueAt(log[e.no], period)
    {
      hide InOrder, Before, AllLater, Drained, Moved, SomeTurns, Acted, OneTurn, EventsOf;
      current_time := current_time + period;
      fired, stopped := [], [];
      StartsDrain(queue, count, current_time);
      NoTurn(Pending(EventsOf(queue), count), calls, current_time, period);
      while queue != [] && queue[0].time <= current_time
        invariant Registered() && old(log) <= log && old(count) <= count
        invariant current_time == old(current_time) + period
        invariant Drained(old(queue), queue, fired, stopped, old(count), current_time)
        invariant SomeTurns(Pending(EventsOf(old(queue)), old(count)), Pending(EventsOf(queue), count), fired, calls,
                            current_time, period)
        invariant forall e :: e in stopped ==> e.no < count
        decreases DueIn(queue, current_time)
      {
        ghost var q, c := queue, count;
        FirstIsEarliest(queue);
        var acts := if |fired| < |calls| then calls[|fired|] else [];
        NoActs(current_time);
        var event := queue[0];
        queue := queue[1..];
        var s := Serve(acts);
        TurnIs(q, c, Pending(EventsOf(queue), count), acts, current_time, period);
        OneMoreTurn(Pending(EventsOf(old(queue)), old(count)), Pending(EventsOf(q), c), Pending(EventsOf(queue), count),
                    fired, event, calls, current_time, period);
        CalledOne(old(queue), q, queue, fired, stopped, s, old(count), c, current_time);
        fired, stopped := fired + [event], stopped + s;
      }
      if queue != [] {
        FirstIsEarliest(queue);
        NothingDue(queue, current_time);
      }
      DrainedFired(old(queue), queue, fired, stopped, old(count), current_time);
    }

    /** `call_cychdr` for an event that has come up: the next start is registered. */
    method Again(e: Event, cyctim: int)
      requires Valid() && cyctim > 0 && e.time <= current_time
      modifies this`queue, this`count, this`log
      ensures Valid() && log == old(log) + [Moment(NextTime(e.time, cyctim, current_time))]
      ensures forall f :: f in queue <==>
                f in old(queue) || f == Event(e.what, NextTime(e.time, cyctim, current_time), old(count))
    {
      hide InOrder, Before, NextTime;
      NextTimeIsLater(e.time, cyctim, current_time);
      InsertAbs(e.what, NextTime(e.time, cyctim, current_time));
    }
  }

  lemma NotActed(s: Pending, acts: seq<Act>, now: int, period: int)
    ensures Acted(s, acts[..0], now, period) == s
  {
  }

  lemma StartsDrain(q: seq<Event>, count: nat, now: int)
    ensures Drained(q, q, [], [], count, now)
  {
  }

  lemma NoActs(now: int)
    ensures AllLater([], now)
  {
  }

  lemma NothingDue(q: seq<Event>, now: int)
    requires InOrder(q) && q != [] && q[0].time > now
    ensures forall e :: e in q ==> e.time > now
  {
    FirstIsEarliest(q);
    assert q == [q[0]] + q[1..];
  }

  lemma DrainedFired(q: seq<Event>, q': seq<Event>, fired: seq<Event>, stopped: seq<Event>, count: nat, now: int)
    requires Drained(q, q', fired, stopped, count, now)
    ensures forall e :: e in fired ==> e in q && e.time <= now
  {
  }
}
