/** The dispatch orchestrator: a paced round-robin loop that walks an ordered message
    source and hands consecutive items to the ready senders, a bounded burst each per
    cycle, logging one attempt per item. The broadcast source is the special case in
    which every item carries the same text.

    Readiness and send outcomes are oracles: `ready` holds the pairs (cycle, sender id)
    for which `isReady` answers true when the loop reaches that sender in that cycle,
    and `failures` maps the index of each attempt whose `sendMessage` threw to the
    error message. Sleeps are not modelled. */
module Dispatch {
  import opened Records

  /** One unit of the message source: a recipient and the text sent to it. */
  datatype Item = Item(number: string, text: string)

  /** How one call to `sendMessage` ended, as the loop sees it: the value of
      `Sessions.SendResult` without the client details (`Delivered` becomes `Sent`),
      or the message of the error thrown. */
  datatype Outcome = Sent | Threw(message: string)

  /** A call the loop made to `sendMessage`. */
  datatype Call = Call(senderId: SenderId, number: string, text: string)

  /** How attempt `i` ended: it threw when `failures` names it, else it went through. */
  function OutcomeAt(failures: imap<nat, string>, i: nat): (o: Outcome)
    ensures o.Threw? <==> i in failures
    ensures o.Threw? ==> o.message == failures[i]
  {
    if i in failures then Threw(failures[i]) else Sent
  }

  /** The status column of an attempt record: `success`, or `failed` with the error
      message. */
  function StatusOf(o: Outcome): (st: Status)
    ensures st.Success? <==> o.Sent?
    ensures o.Threw? ==> st == Failed(o.message)
  {
    match o
    case Sent => Success
    case Threw(message) => Failed(message)
  }

  // ---------------------------------------------------------------------------
  // Message sources

  /** The text of a broadcast: the given body when set, else a greeting naming the room. */
  function BroadcastText(body: Option<string>, roomName: string): (t: string)
    ensures t != ""
    ensures IsSet(body) ==> t == body.value
    ensures !IsSet(body) ==> t == "Message from " + roomName
  {
    if IsSet(body) then body.value else "Message from " + roomName
  }

  /** A broadcast as a message source: one item per receiver, in receiver order, all
      carrying the broadcast text. */
  function BroadcastItems(receivers: seq<string>, body: Option<string>, roomName: string): (items: seq<Item>)
    ensures |items| == |receivers|
    ensures forall i :: 0 <= i < |items| ==>
              items[i].number == receivers[i] && items[i].text == BroadcastText(body, roomName)
  {
    if receivers == [] then []
    else BroadcastItems(receivers[..|receivers| - 1], body, roomName)
         + [Item(receivers[|receivers| - 1], BroadcastText(body, roomName))]
  }

  // ---------------------------------------------------------------------------
  // The schedule: which sender position handles which item

  function Min(a: int, b: int): int {
    if a <= b then a else b
  }

  function Repeat(x: nat, k: nat): (r: seq<nat>)
    ensures |r| == k
  {
    if k == 0 then [] else Repeat(x, k - 1) + [x]
  }

  /** The items a sender at position `pos` takes when the cursor stands at `at`: none
      when the source is exhausted or the sender is not ready, otherwise as many as the
      burst allows and the source still holds. */
  function Burst(pos: nat, isReady: bool, maxPer: int, at: nat, n: nat): (r: seq<nat>)
    ensures at < n && isReady && maxPer >= 1 ==> |r| >= 1
    ensures at + |r| <= n || r == []
    ensures |r| <= maxPer || r == []
  {
    if at >= n || !isReady || maxPer <= 0 then [] else Repeat(pos, Min(maxPer, n - at))
  }

  /** The positions of the senders handling the items of one cycle, which starts with
      the cursor at `at`, after the first `p` senders have had their turn. */
  function CycleSlots(ids: seq<SenderId>, ready: iset<(nat, SenderId)>, cycle: nat,
                      maxPer: int, at: nat, n: nat, p: nat): (r: seq<nat>)
    requires p <= |ids|
    ensures at <= n ==> at + |r| <= n
    ensures at >= n ==> r == []
    decreases p
  {
    if p == 0 then []
    else
      var prev := CycleSlots(ids, ready, cycle, maxPer, at, n, p - 1);
      prev + Burst(p - 1, (cycle, ids[p - 1]) in ready, maxPer, at + |prev|, n)
  }

  /** The sender positions handling the items of the first `cycles` cycles, in source
      order. */
  function RunSlots(ids: seq<SenderId>, ready: iset<(nat, SenderId)>, maxPer: int,
                    n: nat, cycles: nat): (r: seq<nat>)
    ensures |r| <= n
    decreases cycles
  {
    if cycles == 0 then []
    else
      var prev := RunSlots(ids, ready, maxPer, n, cycles - 1);
      prev + CycleSlots(ids, ready, cycles - 1, maxPer, |prev|, n, |ids|)
  }

  /** The run's schedule grows cycle by cycle: a cycle continues the source from where
      the previous cycles left it. */
  lemma RunSlotsStep(ids: seq<SenderId>, ready: iset<(nat, SenderId)>, maxPer: int, n: nat, cycles: nat,
                     slots: seq<nat>, slots': seq<nat>)
    requires slots == RunSlots(ids, ready, maxPer, n, cycles)
    requires slots' == slots + CycleSlots(ids, ready, cycles, maxPer, |slots|, n, |ids|)
    ensures slots' == RunSlots(ids, ready, maxPer, n, cycles + 1)
  {
  }

  /** A sender's turn extends the schedule written so far by that sender's burst, taken
      from where the cursor now stands. */
  lemma CycleStep(ids: seq<SenderId>, ready: iset<(nat, SenderId)>, cycle: nat, maxPer: int,
                  at: nat, n: nat, p: nat, slots: seq<nat>, taken: seq<nat>)
    requires p < |ids| && |slots| == at
    requires taken == slots + CycleSlots(ids, ready, cycle, maxPer, at, n, p)
    ensures taken + Burst(p, (cycle, ids[p]) in ready, maxPer, |taken|, n)
            == slots + CycleSlots(ids, ready, cycle, maxPer, at, n, p + 1)
  {
    var turns := CycleSlots(ids, ready, cycle, maxPer, at, n, p);
    var burst := Burst(p, (cycle, ids[p]) in ready, maxPer, |taken|, n);
    assert (slots + turns) + burst == slots + (turns + burst);
  }

  ghost predicate SomeReady(ids: seq<SenderId>, ready: iset<(nat, SenderId)>, cycle: nat) {
    exists i :: 0 <= i < |ids| && (cycle, ids[i]) in ready
  }

  ghost predicate ReadyAtOrAfter(ids: seq<SenderId>, ready: iset<(nat, SenderId)>, cycle: nat) {
    exists d: nat :: d >= cycle && SomeReady(ids, ready, d)
  }

  /** However many cycles have passed, some later cycle finds a ready sender. */
  ghost predicate Fair(ids: seq<SenderId>, ready: iset<(nat, SenderId)>) {
    forall c: nat :: ReadyAtOrAfter(ids, ready, c)
  }

  /** Under fairness, a cycle at or after `c` in which some sender is ready. */
  ghost function NextReadyCycle(ids: seq<SenderId>, ready: iset<(nat, SenderId)>, c: nat): (t: nat)
    requires Fair(ids, ready)
    ensures t >= c && SomeReady(ids, ready, t)
  {
    assert ReadyAtOrAfter(ids, ready, c);
    var t: nat :| t >= c && SomeReady(ids, ready, t); t
  }

  /** The termination witness after a cycle that started with items left: the same ready
      cycle when this one moved nothing (it then had no sender ready), else the next
      ready cycle. */
  ghost function NextTarget(ids: seq<SenderId>, ready: iset<(nat, SenderId)>, maxPer: int,
                            cycle: nat, target: nat, at: nat, n: nat, moved: nat): (t: nat)
    requires Fair(ids, ready) && maxPer >= 1 && at < n
    requires target >= cycle && SomeReady(ids, ready, target)
    requires moved == |CycleSlots(ids, ready, cycle, maxPer, at, n, |ids|)|
    ensures t >= cycle + 1 && SomeReady(ids, ready, t)
    ensures moved == 0 ==> t == target
  {
    if moved == 0 then
      StalledCycle(ids, ready, cycle, maxPer, at, n);
      target
    else
      NextReadyCycle(ids, ready, cycle + 1)
  }

  /** The loop over a source of `n` items ends: some number of cycles hands out every
      item. After `c` cycles the cursor stands at `|RunSlots(ids, ready, maxPer, n, c)|`,
      so this is exactly the condition under which the loop exits. */
  ghost predicate Finishes(ids: seq<SenderId>, ready: iset<(nat, SenderId)>, maxPer: int, n: nat) {
    exists c: nat :: |RunSlots(ids, ready, maxPer, n, c)| == n
  }

  /** Once every item is handed out, later cycles hand out nothing more. */
  lemma {:induction false} FinishedStaysFinished(ids: seq<SenderId>, ready: iset<(nat, SenderId)>,
                                                 maxPer: int, n: nat, c: nat, d: nat)
    requires c <= d && |RunSlots(ids, ready, maxPer, n, c)| == n
    ensures |RunSlots(ids, ready, maxPer, n, d)| == n
    decreases d
  {
    if d > c {
      FinishedStaysFinished(ids, ready, maxPer, n, c, d - 1);
    }
  }

  /** With bursts of at least one item and a sender ready again in some later cycle
      whatever the cycle, the loop ends. */
  lemma FairFinishes(ids: seq<SenderId>, ready: iset<(nat, SenderId)>, maxPer: int, n: nat)
    requires maxPer >= 1 && Fair(ids, ready)
    ensures Finishes(ids, ready, maxPer, n)
  {
    FairFinishesFrom(ids, ready, maxPer, n, 0, NextReadyCycle(ids, ready, 0));
  }

  /** `FairFinishes`, from cycle `c` on, with `target` a cycle ahead in which some sender
      is ready: every cycle either moves the cursor or brings `target` closer. */
  lemma {:induction false} FairFinishesFrom(ids: seq<SenderId>, ready: iset<(nat, SenderId)>,
                                            maxPer: int, n: nat, c: nat, target: nat)
    requires maxPer >= 1 && Fair(ids, ready)
    requires target >= c && SomeReady(ids, ready, target)
    ensures Finishes(ids, ready, maxPer, n)
    decreases n - |RunSlots(ids, ready, maxPer, n, c)|, target - c
  {
    var slots := RunSlots(ids, ready, maxPer, n, c);
    if |slots| < n {
      var moved := |CycleSlots(ids, ready, c, maxPer, |slots|, n, |ids|)|;
      var t := NextTarget(ids, ready, maxPer, c, target, |slots|, n, moved);
      assert |RunSlots(ids, ready, maxPer, n, c + 1)| == |slots| + moved;
      FairFinishesFrom(ids, ready, maxPer, n, c + 1, t);
    } else {
      assert |RunSlots(ids, ready, maxPer, n, c)| == n;
    }
  }

  // ---------------------------------------------------------------------------
  // Properties of the schedule

  /** A burst hands its items to one sender only. */
  lemma {:induction false} RepeatElements(x: nat, k: nat)
    ensures forall i :: 0 <= i < k ==> Repeat(x, k)[i] == x
    decreases k
  {
    if k > 0 {
      RepeatElements(x, k - 1);
      assert Repeat(x, k) == Repeat(x, k - 1) + [x];
    }
  }

  predicate NonDecreasing(s: seq<nat>) {
    forall i, j :: 0 <= i < j < |s| ==> s[i] <= s[j]
  }

  /** Every slot names one of the first `p` senders, one that was ready in `cycle`. */
  ghost predicate TakenByReady(r: seq<nat>, ids: seq<SenderId>, ready: iset<(nat, SenderId)>, cycle: nat, p: nat)
    requires p <= |ids|
  {
    forall i :: 0 <= i < |r| ==> r[i] < p && (cycle, ids[r[i]]) in ready
  }

  /** Every item of a cycle goes to one of the senders that have had their turn, and
      only to one that was ready. */
  lemma {:induction false} CycleSlotsReady(ids: seq<SenderId>, ready: iset<(nat, SenderId)>,
                                           cycle: nat, maxPer: int, at: nat, n: nat, p: nat)
    requires p <= |ids|
    ensures TakenByReady(CycleSlots(ids, ready, cycle, maxPer, at, n, p), ids, ready, cycle, p)
    decreases p
  {
    if p > 0 {
      CycleSlotsReady(ids, ready, cycle, maxPer, at, n, p - 1);
      var prev := CycleSlots(ids, ready, cycle, maxPer, at, n, p - 1);
      var b := Burst(p - 1, (cycle, ids[p - 1]) in ready, maxPer, at + |prev|, n);
      var r := prev + b;
      if b != [] {
        RepeatElements(p - 1, Min(maxPer, n - (at + |prev|)));
      }
      forall i | 0 <= i < |r| ensures r[i] < p && (cycle, ids[r[i]]) in ready {
        if i < |prev| {
          assert r[i] == prev[i];
        } else {
          assert r[i] == b[i - |prev|] == p - 1;
        }
      }
    }
  }

  /** Within a cycle the senders take their turns in list order: once control has passed
      to a later sender, no earlier one handles another item in that cycle. */
  lemma {:induction false} CycleSlotsInSenderOrder(ids: seq<SenderId>, ready: iset<(nat, SenderId)>,
                                                   cycle: nat, maxPer: int, at: nat, n: nat, p: nat)
    requires p <= |ids|
    ensures NonDecreasing(CycleSlots(ids, ready, cycle, maxPer, at, n, p))
    decreases p
  {
    if p > 0 {
      CycleSlotsInSenderOrder(ids, ready, cycle, maxPer, at, n, p - 1);
      CycleSlotsReady(ids, ready, cycle, maxPer, at, n, p - 1);
      var prev := CycleSlots(ids, ready, cycle, maxPer, at, n, p - 1);
      var b := Burst(p - 1, (cycle, ids[p - 1]) in ready, maxPer, at + |prev|, n);
      var r := prev + b;
      if b != [] {
        RepeatElements(p - 1, Min(maxPer, n - (at + |prev|)));
      }
      assert NonDecreasing(prev) && TakenByReady(prev, ids, ready, cycle, p - 1);
      forall i, j | 0 <= i < j < |r| ensures r[i] <= r[j] {
        if j < |prev| {
          assert r[i] == prev[i] && r[j] == prev[j];
          assert prev[i] <= prev[j];
        } else if i < |prev| {
          assert r[i] == prev[i] < p - 1 && r[j] == b[j - |prev|] == p - 1;
        } else {
          assert r[i] == b[i - |prev|] && r[j] == b[j - |prev|];
        }
      }
    }
  }

  /** No `maxPer + 1` consecutive slots belong to one sender: the slot `maxPer` places
      back always names an earlier sender. */
  ghost predicate BurstsWithin(r: seq<nat>, maxPer: int) {
    forall i :: 0 < maxPer <= i < |r| ==> r[i - maxPer] < r[i]
  }

  /** Appending a burst of at most `maxPer` slots for a sender placed after every sender
      already in the schedule keeps the bound. */
  lemma BurstsWithinAppend(prev: seq<nat>, x: nat, k: nat, maxPer: int)
    requires BurstsWithin(prev, maxPer) && k <= maxPer
    requires forall i :: 0 <= i < |prev| ==> prev[i] < x
    ensures BurstsWithin(prev + Repeat(x, k), maxPer)
  {
    var r := prev + Repeat(x, k);
    RepeatElements(x, k);
    forall i | 0 < maxPer <= i < |r| ensures r[i - maxPer] < r[i] {
      if i < |prev| {
        assert r[i] == prev[i] && r[i - maxPer] == prev[i - maxPer];
      } else {
        assert r[i] == x;
        assert r[i - maxPer] == prev[i - maxPer];
      }
    }
  }

  /** Within a cycle a sender handles at most `maxPer` consecutive items: together with
      the sender order, no sender gets more than `maxPer` items in one cycle. */
  lemma {:induction false} CycleBurstBound(ids: seq<SenderId>, ready: iset<(nat, SenderId)>,
                                           cycle: nat, maxPer: int, at: nat, n: nat, p: nat)
    requires p <= |ids|
    ensures BurstsWithin(CycleSlots(ids, ready, cycle, maxPer, at, n, p), maxPer)
    decreases p
  {
    if p > 0 {
      CycleBurstBound(ids, ready, cycle, maxPer, at, n, p - 1);
      CycleSlotsReady(ids, ready, cycle, maxPer, at, n, p - 1);
      var prev := CycleSlots(ids, ready, cycle, maxPer, at, n, p - 1);
      var isReady := (cycle, ids[p - 1]) in ready;
      if at + |prev| >= n || !isReady || maxPer <= 0 {
        assert prev + [] == prev;
      } else {
        BurstsWithinAppend(prev, p - 1, Min(maxPer, n - (at + |prev|)), maxPer);
      }
    }
  }

  /** A cycle that starts with items left and finds some sender ready moves the cursor. */
  lemma {:induction false} CycleProgress(ids: seq<SenderId>, ready: iset<(nat, SenderId)>,
                                         cycle: nat, maxPer: int, at: nat, n: nat, p: nat, q: nat)
    requires q < p <= |ids|
    requires at < n && maxPer >= 1 && (cycle, ids[q]) in ready
    ensures |CycleSlots(ids, ready, cycle, maxPer, at, n, p)| >= 1
    decreases p
  {
    var prev := CycleSlots(ids, ready, cycle, maxPer, at, n, p - 1);
    if q < p - 1 {
      CycleProgress(ids, ready, cycle, maxPer, at, n, p - 1, q);
    } else if prev == [] {
      var b := Burst(p - 1, (cycle, ids[p - 1]) in ready, maxPer, at, n);
      assert |b| >= 1;
    }
  }

  /** Once the source is exhausted, the remaining senders of the cycle take nothing:
      breaking out of the cycle early is the same as finishing it. */
  lemma {:induction false} CycleSaturated(ids: seq<SenderId>, ready: iset<(nat, SenderId)>,
                                          cycle: nat, maxPer: int, at: nat, n: nat, p: nat, q: nat)
    requires p <= q <= |ids|
    requires at + |CycleSlots(ids, ready, cycle, maxPer, at, n, p)| >= n
    ensures CycleSlots(ids, ready, cycle, maxPer, at, n, q) == CycleSlots(ids, ready, cycle, maxPer, at, n, p)
    decreases q
  {
    if q > p {
      CycleSaturated(ids, ready, cycle, maxPer, at, n, p, q - 1);
    }
  }

  /** A cycle in which no sender is ready hands out no item. */
  lemma {:induction false} CycleWithoutReadyIsEmpty(ids: seq<SenderId>, ready: iset<(nat, SenderId)>,
                                                    cycle: nat, maxPer: int, at: nat, n: nat, p: nat)
    requires p <= |ids|
    requires !SomeReady(ids, ready, cycle)
    ensures CycleSlots(ids, ready, cycle, maxPer, at, n, p) == []
    decreases p
  {
    if p > 0 {
      CycleWithoutReadyIsEmpty(ids, ready, cycle, maxPer, at, n, p - 1);
      assert (cycle, ids[p - 1]) !in ready;
    }
  }

  /** A cycle that starts with items left and hands out none found no sender ready. */
  lemma StalledCycle(ids: seq<SenderId>, ready: iset<(nat, SenderId)>, cycle: nat,
                     maxPer: int, at: nat, n: nat)
    requires at < n && maxPer >= 1
    requires CycleSlots(ids, ready, cycle, maxPer, at, n, |ids|) == []
    ensures !SomeReady(ids, ready, cycle)
  {
    if SomeReady(ids, ready, cycle) {
      var q :| 0 <= q < |ids| && (cycle, ids[q]) in ready;
      CycleProgress(ids, ready, cycle, maxPer, at, n, |ids|, q);
    }
  }

  /** When no sender is ever ready, no cycle hands out an item: the loop never ends. */
  lemma {:induction false} NeverReadyStalls(ids: seq<SenderId>, ready: iset<(nat, SenderId)>,
                                            maxPer: int, n: nat, cycles: nat)
    requires forall c: nat :: !SomeReady(ids, ready, c)
    ensures |RunSlots(ids, ready, maxPer, n, cycles)| == 0
    decreases cycles
  {
    if cycles > 0 {
      NeverReadyStalls(ids, ready, maxPer, n, cycles - 1);
      var prev := RunSlots(ids, ready, maxPer, n, cycles - 1);
      CycleWithoutReadyIsEmpty(ids, ready, cycles - 1, maxPer, |prev|, n, |ids|);
    }
  }

  /** With a burst size below one a ready sender takes nothing either. */
  lemma {:induction false} CycleWithoutQuotaIsEmpty(ids: seq<SenderId>, ready: iset<(nat, SenderId)>,
                                                    cycle: nat, maxPer: int, at: nat, n: nat, p: nat)
    requires p <= |ids| && maxPer <= 0
    ensures CycleSlots(ids, ready, cycle, maxPer, at, n, p) == []
    decreases p
  {
    if p > 0 {
      CycleWithoutQuotaIsEmpty(ids, ready, cycle, maxPer, at, n, p - 1);
    }
  }

  /** When the burst size is below one, no cycle hands out an item: the loop never ends,
      which is why a run over a non-empty source needs `maxPer >= 1`. */
  lemma {:induction false} NoQuotaStalls(ids: seq<SenderId>, ready: iset<(nat, SenderId)>,
                                         maxPer: int, n: nat, cycles: nat)
    requires maxPer <= 0
    ensures |RunSlots(ids, ready, maxPer, n, cycles)| == 0
    decreases cycles
  {
    if cycles > 0 {
      NoQuotaStalls(ids, ready, maxPer, n, cycles - 1);
      var prev := RunSlots(ids, ready, maxPer, n, cycles - 1);
      CycleWithoutQuotaIsEmpty(ids, ready, cycles - 1, maxPer, |prev|, n, |ids|);
    }
  }

  /** One sender ready in every cycle, bursts of 2, five items: cycles of 2, 2 and 1 items. */
  lemma ScenarioOneSenderBurstTwo(ready: iset<(nat, SenderId)>)
    requires forall c: nat :: (c, "s") in ready
    ensures CycleSlots(["s"], ready, 0, 2, 0, 5, 1) == [0, 0]
    ensures CycleSlots(["s"], ready, 1, 2, 2, 5, 1) == [0, 0]
    ensures CycleSlots(["s"], ready, 2, 2, 4, 5, 1) == [0]
    ensures RunSlots(["s"], ready, 2, 5, 3) == [0, 0, 0, 0, 0]
  {
    assert (0, "s") in ready && (1, "s") in ready && (2, "s") in ready;
    assert Repeat(0, 2) == [0, 0] by {
      assert Repeat(0, 1) == [0];
    }
    assert Repeat(0, 1) == [0];
  }

  /** Two senders ready in every cycle, bursts of 1, four items: the senders alternate. */
  lemma ScenarioTwoSendersAlternate(ready: iset<(nat, SenderId)>)
    requires forall c: nat :: (c, "A") in ready && (c, "B") in ready
    ensures RunSlots(["A", "B"], ready, 1, 4, 2) == [0, 1, 0, 1]
  {
    assert (0, "A") in ready && (0, "B") in ready && (1, "A") in ready && (1, "B") in ready;
    assert Repeat(0, 1) == [0];
    assert Repeat(1, 1) == [1];
    assert CycleSlots(["A", "B"], ready, 0, 1, 0, 4, 1) == [0];
    assert CycleSlots(["A", "B"], ready, 0, 1, 0, 4, 2) == [0, 1];
    assert CycleSlots(["A", "B"], ready, 1, 1, 2, 4, 1) == [0];
    assert CycleSlots(["A", "B"], ready, 1, 1, 2, 4, 2) == [0, 1];
  }

  /** One sender, ready in the first cycle only, with a burst that covers the whole
      source: the loop ends after one cycle, so fairness is sufficient for it to end
      but not necessary. */
  lemma ScenarioReadyOnce()
    ensures RunSlots(["s"], iset{(0, "s")}, 3, 2, 1) == [0, 0]
    ensures Finishes(["s"], iset{(0, "s")}, 3, 2)
    ensures !Fair(["s"], iset{(0, "s")})
  {
    assert Repeat(0, 2) == [0, 0] by {
      assert Repeat(0, 1) == [0];
    }
    assert !ReadyAtOrAfter(["s"], iset{(0, "s")}, 1);
  }

  // ---------------------------------------------------------------------------
  // Counting the attempt log

  function Successes(log: seq<MessageLog>): nat {
    if log == [] then 0
    else Successes(log[..|log| - 1]) + (if log[|log| - 1].status.Success? then 1 else 0)
  }

  function SuccessesBy(log: seq<MessageLog>, id: SenderId): nat {
    if log == [] then 0
    else SuccessesBy(log[..|log| - 1], id)
         + (if log[|log| - 1].status.Success? && log[|log| - 1].senderId == id then 1 else 0)
  }

  /** The successes of the senders listed, summed sender by sender. */
  function SuccessesOf(log: seq<MessageLog>, ids: seq<SenderId>): nat {
    if ids == [] then 0 else SuccessesOf(log, ids[..|ids| - 1]) + SuccessesBy(log, ids[|ids| - 1])
  }

  lemma SuccessesAppend(log: seq<MessageLog>, a: MessageLog)
    ensures Successes(log + [a]) == Successes(log) + (if a.status.Success? then 1 else 0)
    ensures forall id :: SuccessesBy(log + [a], id) ==
              SuccessesBy(log, id) + (if a.status.Success? && a.senderId == id then 1 else 0)
  {
    assert (log + [a])[..|log|] == log;
  }

  lemma {:induction false} SuccessesOfAppend(log: seq<MessageLog>, a: MessageLog, ids: seq<SenderId>)
    requires forall i, j :: 0 <= i < j < |ids| ==> ids[i] != ids[j]
    ensures SuccessesOf(log + [a], ids) ==
              SuccessesOf(log, ids) + (if a.status.Success? && a.senderId in ids then 1 else 0)
    decreases |ids|
  {
    SuccessesAppend(log, a);
    if ids != [] {
      var init := ids[..|ids| - 1];
      SuccessesOfAppend(log, a, init);
      assert a.senderId in ids <==> a.senderId in init || a.senderId == ids[|ids| - 1];
    }
  }

  /** When every attempt was made by one of the listed (distinct) senders, the run's
      successes are exactly the sum of the senders' own successes. */
  lemma {:induction false} SuccessesPartition(log: seq<MessageLog>, ids: seq<SenderId>)
    requires forall i, j :: 0 <= i < j < |ids| ==> ids[i] != ids[j]
    requires forall k :: 0 <= k < |log| ==> log[k].senderId in ids
    ensures Successes(log) == SuccessesOf(log, ids)
    decreases |log|
  {
    if log == [] {
      EmptySuccessesOf(ids);
    } else {
      var init := log[..|log| - 1];
      var last := log[|log| - 1];
      assert log == init + [last];
      SuccessesPartition(init, ids);
      SuccessesAppend(init, last);
      SuccessesOfAppend(init, last, ids);
    }
  }

  lemma {:induction false} EmptySuccessesOf(ids: seq<SenderId>)
    ensures SuccessesOf([], ids) == 0
    decreases |ids|
  {
    if ids != [] {
      EmptySuccessesOf(ids[..|ids| - 1]);
    }
  }

  // ---------------------------------------------------------------------------
  // The dispatch loop

  /** The attempt record the loop writes for an item handled by `sender`. */
  function Record(roomId: RoomId, sender: SenderId, item: Item, o: Outcome): (r: MessageLog)
    ensures r.roomId == roomId && r.senderId == sender && r.receiverNumber == item.number
    ensures r.status.Success? <==> o.Sent?
    ensures o.Threw? ==> r.status == Failed(o.message)
  {
    MessageLog(roomId, sender, item.number, StatusOf(o))
  }

  /** Item i was attempted by the sender at position slots[i], with the call and the
      record that attempt produces. */
  ghost predicate AttemptLogged(roomId: RoomId, ids: seq<SenderId>, items: seq<Item>, failures: imap<nat, string>,
                                slots: seq<nat>, calls: seq<Call>, log: seq<MessageLog>, i: nat)
    requires i < |log| && |slots| == |log| && |calls| == |log| && |log| <= |items|
  {
    slots[i] < |ids| &&
    calls[i] == Call(ids[slots[i]], items[i].number, items[i].text) &&
    log[i] == Record(roomId, ids[slots[i]], items[i], OutcomeAt(failures, i))
  }

  /** The first k items have been attempted in source order, each as `AttemptLogged`
      describes. */
  ghost predicate LoggedUpTo(roomId: RoomId, ids: seq<SenderId>, items: seq<Item>, failures: imap<nat, string>,
                             slots: seq<nat>, calls: seq<Call>, log: seq<MessageLog>, k: nat)
    requires k <= |log| && |slots| == |log| && |calls| == |log| && |log| <= |items|
    decreases k
  {
    k == 0 ||
    (LoggedUpTo(roomId, ids, items, failures, slots, calls, log, k - 1) &&
     AttemptLogged(roomId, ids, items, failures, slots, calls, log, k - 1))
  }

  /** Every item of the log has been attempted as `AttemptLogged` describes. */
  ghost predicate Logged(roomId: RoomId, ids: seq<SenderId>, items: seq<Item>, failures: imap<nat, string>,
                         slots: seq<nat>, calls: seq<Call>, log: seq<MessageLog>)
  {
    |slots| == |log| && |calls| == |log| && |log| <= |items| &&
    LoggedUpTo(roomId, ids, items, failures, slots, calls, log, |log|)
  }

  /** Appending an attempt leaves the earlier attempts as they were. */
  lemma {:induction false} LoggedUpToAppend(roomId: RoomId, ids: seq<SenderId>, items: seq<Item>,
                                            failures: imap<nat, string>, slots: seq<nat>, calls: seq<Call>,
                                            log: seq<MessageLog>, q: nat, c: Call, r: MessageLog, k: nat)
    requires |slots| == |log| && |calls| == |log| && |log| < |items| && k <= |log|
    requires LoggedUpTo(roomId, ids, items, failures, slots, calls, log, k)
    ensures LoggedUpTo(roomId, ids, items, failures, slots + [q], calls + [c], log + [r], k)
    decreases k
  {
    if k > 0 {
      LoggedUpToAppend(roomId, ids, items, failures, slots, calls, log, q, c, r, k - 1);
      var i := k - 1;
      assert (slots + [q])[i] == slots[i] && (calls + [c])[i] == calls[i] && (log + [r])[i] == log[i];
    }
  }

  /** Attempting the next item extends the log by one record. */
  lemma LoggedAppend(roomId: RoomId, ids: seq<SenderId>, items: seq<Item>, failures: imap<nat, string>,
                     slots: seq<nat>, calls: seq<Call>, log: seq<MessageLog>, q: nat)
    requires Logged(roomId, ids, items, failures, slots, calls, log)
    requires |log| < |items| && q < |ids|
    ensures var i := |log|;
            Logged(roomId, ids, items, failures, slots + [q],
                   calls + [Call(ids[q], items[i].number, items[i].text)],
                   log + [Record(roomId, ids[q], items[i], OutcomeAt(failures, i))])
  {
    var i := |log|;
    var c, r := Call(ids[q], items[i].number, items[i].text), Record(roomId, ids[q], items[i], OutcomeAt(failures, i));
    LoggedUpToAppend(roomId, ids, items, failures, slots, calls, log, q, c, r, i);
  }

  /** Every attempt among the first k is as `AttemptLogged` describes. */
  lemma {:induction false} LoggedUpToAt(roomId: RoomId, ids: seq<SenderId>, items: seq<Item>,
                                        failures: imap<nat, string>, slots: seq<nat>, calls: seq<Call>,
                                        log: seq<MessageLog>, k: nat, i: nat)
    requires |slots| == |log| && |calls| == |log| && |log| <= |items| && k <= |log|
    requires LoggedUpTo(roomId, ids, items, failures, slots, calls, log, k) && i < k
    ensures AttemptLogged(roomId, ids, items, failures, slots, calls, log, i)
    decreases k
  {
    if i < k - 1 {
      LoggedUpToAt(roomId, ids, items, failures, slots, calls, log, k - 1, i);
    }
  }

  /** Every attempt of a logged run is as `AttemptLogged` describes. */
  lemma LoggedAt(roomId: RoomId, ids: seq<SenderId>, items: seq<Item>, failures: imap<nat, string>,
                 slots: seq<nat>, calls: seq<Call>, log: seq<MessageLog>, i: nat)
    requires Logged(roomId, ids, items, failures, slots, calls, log) && i < |log|
    ensures AttemptLogged(roomId, ids, items, failures, slots, calls, log, i)
  {
    LoggedUpToAt(roomId, ids, items, failures, slots, calls, log, |log|, i);
  }

  /** `Logged`, with each attempt's sender named through the sender rows. */
  lemma LoggedBySenders(roomId: RoomId, senders: seq<SenderRow>, items: seq<Item>, failures: imap<nat, string>,
                        slots: seq<nat>, calls: seq<Call>, log: seq<MessageLog>)
    requires |log| == |items| && Logged(roomId, Ids(senders), items, failures, slots, calls, log)
    ensures |slots| == |items| && |calls| == |items|
    ensures forall i :: 0 <= i < |items| ==>
              slots[i] < |senders| &&
              calls[i] == Call(senders[slots[i]].id, items[i].number, items[i].text) &&
              log[i] == Record(roomId, senders[slots[i]].id, items[i], OutcomeAt(failures, i))
  {
    forall i | 0 <= i < |items|
      ensures slots[i] < |senders| &&
              calls[i] == Call(senders[slots[i]].id, items[i].number, items[i].text) &&
              log[i] == Record(roomId, senders[slots[i]].id, items[i], OutcomeAt(failures, i))
    {
      LoggedAt(roomId, Ids(senders), items, failures, slots, calls, log, i);
    }
  }

  /** Distinct sender rows give a list of pairwise distinct ids. */
  lemma DistinctIdsList(senders: seq<SenderRow>)
    requires DistinctIds(senders)
    ensures forall i, j :: 0 <= i < j < |senders| ==> Ids(senders)[i] != Ids(senders)[j]
  {
    forall i, j | 0 <= i < j < |senders| ensures Ids(senders)[i] != Ids(senders)[j] {
      assert UniqueAt(senders, i);
    }
  }

  /** Every attempt of the run was made by one of its (distinct) senders, so the run's
      successes split exactly into the senders' own successes. */
  lemma RunSuccessesBySender(roomId: RoomId, senders: seq<SenderRow>, items: seq<Item>, failures: imap<nat, string>,
                             slots: seq<nat>, calls: seq<Call>, log: seq<MessageLog>)
    requires DistinctIds(senders) && Logged(roomId, Ids(senders), items, failures, slots, calls, log)
    ensures Successes(log) == SuccessesOf(log, Ids(senders))
  {
    var ids := Ids(senders);
    DistinctIdsList(senders);
    forall k | 0 <= k < |log| ensures log[k].senderId in ids {
      LoggedAt(roomId, ids, items, failures, slots, calls, log, k);
    }
    SuccessesPartition(log, ids);
  }

  /** The senders' counters, in list order. */
  function Totals(senders: seq<SenderRow>): (t: seq<int>)
    reads senders
    ensures |t| == |senders| && forall j {:trigger t[j]} :: 0 <= j < |senders| ==> t[j] == senders[j].totalSent
  {
    seq(|senders|, j requires 0 <= j < |senders| reads senders => senders[j].totalSent)
  }

  /** Each sender's counter has grown from `before` by exactly its successes in `log`. */
  ghost predicate Tallied(totals: seq<int>, before: seq<int>, ids: seq<SenderId>, log: seq<MessageLog>) {
    |totals| == |ids| && |before| == |ids| &&
    forall j {:trigger totals[j]} :: 0 <= j < |ids| ==> totals[j] == before[j] + SuccessesBy(log, ids[j])
  }

  /** `Tallied`, read off the sender rows. */
  lemma TalliedCounters(senders: seq<SenderRow>, before: seq<int>, log: seq<MessageLog>)
    requires Tallied(Totals(senders), before, Ids(senders), log)
    ensures forall j :: 0 <= j < |senders| ==> senders[j].totalSent == before[j] + SuccessesBy(log, senders[j].id)
  {
    forall j | 0 <= j < |senders|
      ensures senders[j].totalSent == before[j] + SuccessesBy(log, senders[j].id)
    {
      assert Totals(senders)[j] == before[j] + SuccessesBy(log, Ids(senders)[j]);
    }
  }

  /** One attempt: item `cursor` is sent through `sender`; a success is recorded and
      bumps the sender's counter and the run's count, a failure is recorded with its
      error message. Either way the item now has exactly one record. */
  method AttemptItem(room: Room, senders: seq<SenderRow>, sender: SenderRow, p: nat,
                     items: seq<Item>, failures: imap<nat, string>, cursor: nat,
                     log: seq<MessageLog>, sentCount: int,
                     ghost before: seq<int>, ghost slots: seq<nat>, ghost calls: seq<Call>)
    returns (log': seq<MessageLog>, sentCount': int, ghost slots': seq<nat>, ghost calls': seq<Call>)
    requires p < |senders| && sender == senders[p] && UniqueAt(senders, p)
    requires cursor == |log| < |items| && Logged(room.id, Ids(senders), items, failures, slots, calls, log)
    requires sentCount == Successes(log) && Tallied(Totals(senders), before, Ids(senders), log)
    modifies sender`totalSent
    ensures slots' == slots + [p] && |log'| == cursor + 1
    ensures Logged(room.id, Ids(senders), items, failures, slots', calls', log')
    ensures sentCount' == Successes(log') && Tallied(Totals(senders), before, Ids(senders), log')
  {
    ghost var ids := Ids(senders);
    ghost var totals := Totals(senders);
    var item := items[cursor];
    var attempt := Record(room.id, sender.id, item, OutcomeAt(failures, cursor));
    LoggedAppend(room.id, ids, items, failures, slots, calls, log, p);
    SuccessesAppend(log, attempt);
    calls' := calls + [Call(sender.id, item.number, item.text)];
    slots' := slots + [p];
    log' := log + [attempt];
    sentCount' := sentCount;
    if OutcomeAt(failures, cursor).Sent? {
      sender.totalSent := sender.totalSent + 1;
      sentCount' := sentCount' + 1;
    }
    forall j | 0 <= j < |senders|
      ensures Totals(senders)[j] == before[j] + SuccessesBy(log', ids[j])
    {
      assert totals[j] == before[j] + SuccessesBy(log, ids[j]);
      assert totals[j] == old(senders[j].totalSent);
      if j != p {
        assert ids[j] != sender.id;
      }
    }
  }

  /** The inner loop of one sender's turn: up to `maxPer` consecutive items, stopping
      early when the source is exhausted, the cursor advancing after every attempt. */
  method SendBurst(room: Room, senders: seq<SenderRow>, sender: SenderRow, p: nat, items: seq<Item>, maxPer: int,
                   failures: imap<nat, string>, cursor: nat, log: seq<MessageLog>, sentCount: int,
                   ghost before: seq<int>, ghost slots: seq<nat>, ghost calls: seq<Call>)
    returns (cursor': nat, log': seq<MessageLog>, sentCount': int,
             ghost slots': seq<nat>, ghost calls': seq<Call>)
    requires p < |senders| && sender == senders[p] && UniqueAt(senders, p)
    requires cursor == |log| && Logged(room.id, Ids(senders), items, failures, slots, calls, log)
    requires sentCount == Successes(log) && Tallied(Totals(senders), before, Ids(senders), log)
    modifies sender`totalSent
    ensures slots' == slots + Burst(p, true, maxPer, cursor, |items|)
    ensures cursor' == |log'| && Logged(room.id, Ids(senders), items, failures, slots', calls', log')
    ensures sentCount' == Successes(log') && Tallied(Totals(senders), before, Ids(senders), log')
  {
    var n := |items|;
    ghost var ids := Ids(senders);
    cursor', log', sentCount', slots', calls' := cursor, log, sentCount, slots, calls;
    var k := 0;
    while k < maxPer
      invariant 0 <= k && cursor + k == cursor' <= n
      invariant k == 0 || k <= maxPer
      invariant slots' == slots + Repeat(p, k)
      invariant cursor' == |log'| && Logged(room.id, ids, items, failures, slots', calls', log')
      invariant sentCount' == Successes(log') && Tallied(Totals(senders), before, Ids(senders), log')
      decreases maxPer - k
    {
      if cursor' >= n {
        break;
      }
      log', sentCount', slots', calls' :=
        AttemptItem(room, senders, sender, p, items, failures, cursor', log', sentCount', before, slots', calls');
      cursor' := cursor' + 1;
      k := k + 1;
    }
    assert k == if cursor >= n || maxPer <= 0 then 0 else Min(maxPer, n - cursor);
  }

  /** One cycle: the senders in list order, stopping once the source is exhausted; a
      sender that is not ready is skipped, a ready one takes its burst. */
  method RunCycle(room: Room, senders: seq<SenderRow>, items: seq<Item>, maxPer: int,
                  ready: iset<(nat, SenderId)>, failures: imap<nat, string>, cycle: nat,
                  cursor: nat, log: seq<MessageLog>, sentCount: int,
                  ghost before: seq<int>, ghost slots: seq<nat>, ghost calls: seq<Call>)
    returns (cursor': nat, log': seq<MessageLog>, sentCount': int,
             ghost slots': seq<nat>, ghost calls': seq<Call>)
    requires DistinctIds(senders)
    requires cursor == |log| && Logged(room.id, Ids(senders), items, failures, slots, calls, log)
    requires sentCount == Successes(log) && Tallied(Totals(senders), before, Ids(senders), log)
    modifies senders`totalSent
    ensures slots' == slots + CycleSlots(Ids(senders), ready, cycle, maxPer, cursor, |items|, |senders|)
    ensures cursor' == |log'| && Logged(room.id, Ids(senders), items, failures, slots', calls', log')
    ensures sentCount' == Successes(log') && Tallied(Totals(senders), before, Ids(senders), log')
  {
    var n := |items|;
    ghost var ids := Ids(senders);
    cursor', log', sentCount', slots', calls' := cursor, log, sentCount, slots, calls;
    var p := 0;
    while p < |senders|
      invariant p <= |senders|
      invariant slots' == slots + CycleSlots(ids, ready, cycle, maxPer, cursor, n, p)
      invariant cursor' == |log'| && Logged(room.id, ids, items, failures, slots', calls', log')
      invariant sentCount' == Successes(log') && Tallied(Totals(senders), before, Ids(senders), log')
    {
      if cursor' >= n {
        CycleSaturated(ids, ready, cycle, maxPer, cursor, n, p, |senders|);
        break;
      }
      ghost var taken := slots';
      var isReady := (cycle, senders[p].id) in ready;
      ghost var burst := Burst(p, isReady, maxPer, cursor', n);
      CycleStep(ids, ready, cycle, maxPer, cursor, n, p, slots, taken);
      assert UniqueAt(senders, p);
      if isReady {
        cursor', log', sentCount', slots', calls' :=
          SendBurst(room, senders, senders[p], p, items, maxPer, failures, cursor', log', sentCount', before, slots', calls');
      } else {
        assert taken + burst == taken;
      }
      p := p + 1;
    }
  }

  /** One pass of the outer loop: the senders' turns, then the cycle delay, taken only
      when items are left over. The pass extends the run's schedule by one cycle. */
  method Cycle(room: Room, senders: seq<SenderRow>, items: seq<Item>, maxPer: int,
               ready: iset<(nat, SenderId)>, failures: imap<nat, string>, cycle: nat,
               cursor: nat, log: seq<MessageLog>, sentCount: int,
               ghost before: seq<int>, ghost slots: seq<nat>, ghost calls: seq<Call>)
    returns (cursor': nat, log': seq<MessageLog>, sentCount': int,
             ghost slots': seq<nat>, ghost calls': seq<Call>, paused: bool)
    requires DistinctIds(senders)
    requires cursor < |items| && slots == RunSlots(Ids(senders), ready, maxPer, |items|, cycle)
    requires cursor == |log| && Logged(room.id, Ids(senders), items, failures, slots, calls, log)
    requires sentCount == Successes(log) && Tallied(Totals(senders), before, Ids(senders), log)
    modifies senders`totalSent
    ensures slots' == RunSlots(Ids(senders), ready, maxPer, |items|, cycle + 1)
    ensures cursor' == |log'| && Logged(room.id, Ids(senders), items, failures, slots', calls', log')
    ensures sentCount' == Successes(log') && Tallied(Totals(senders), before, Ids(senders), log')
    ensures cursor <= cursor' <= |items|
    ensures paused <==> cursor' < |items|
  {
    ghost var ids := Ids(senders);
    cursor', log', sentCount', slots', calls' :=
      RunCycle(room, senders, items, maxPer, ready, failures, cycle, cursor, log, sentCount, before, slots, calls);
    RunSlotsStep(ids, ready, maxPer, |items|, cycle, slots, slots');
    paused := cursor' < |items|;
  }

  /** The outer loop: cycles until the source is exhausted. */
  method RunCycles(room: Room, senders: seq<SenderRow>, items: seq<Item>, maxPer: int,
                   ready: iset<(nat, SenderId)>, failures: imap<nat, string>, ghost before: seq<int>)
    returns (log: seq<MessageLog>, sentCount: int, cycles: nat,
             ghost slots: seq<nat>, ghost calls: seq<Call>)
    requires DistinctIds(senders) && Finishes(Ids(senders), ready, maxPer, |items|)
    requires before == Totals(senders)
    modifies senders`totalSent
    ensures slots == RunSlots(Ids(senders), ready, maxPer, |items|, cycles)
    ensures |log| == |items| && Logged(room.id, Ids(senders), items, failures, slots, calls, log)
    ensures sentCount == Successes(log) && Tallied(Totals(senders), before, Ids(senders), log)
  {
    var n := |items|;
    ghost var ids := Ids(senders);
    sentCount := 0;
    var cursor := 0;
    log, cycles, slots, calls := [], 0, [], [];
    assert forall j {:trigger Totals(senders)[j]} :: 0 <= j < |ids| ==> Totals(senders)[j] == before[j];
    ghost var bound: nat :| |RunSlots(ids, ready, maxPer, n, bound)| == n;
    while cursor < n
      invariant cursor <= n
      invariant slots == RunSlots(ids, ready, maxPer, n, cycles)
      invariant cursor == |log| && Logged(room.id, ids, items, failures, slots, calls, log)
      invariant sentCount == Successes(log) && Tallied(Totals(senders), before, ids, log)
      decreases bound - cycles
    {
      if bound <= cycles {
        FinishedStaysFinished(ids, ready, maxPer, n, bound, cycles);
        assert false;
      }
      var paused;
      cursor, log, sentCount, slots, calls, paused :=
        Cycle(room, senders, items, maxPer, ready, failures, cycles, cursor, log, sentCount, before, slots, calls);
      cycles := cycles + 1;
    }
  }

  /** Runs one dispatch over `items` with the senders in their list order and returns the
      finalised run record, the attempt log and the number of cycles. Ghost results:
      `slots[i]` is the position of the sender that attempted item i, `calls` the
      `sendMessage` calls made. */
  method RunDispatch(room: Room, senders: seq<SenderRow>, items: seq<Item>, maxPer: int,
                     ready: iset<(nat, SenderId)>, failures: imap<nat, string>,
                     startTime: int, endTime: int)
    returns (run: ProcessLog, log: seq<MessageLog>, cycles: nat,
             ghost slots: seq<nat>, ghost calls: seq<Call>)
    requires DistinctIds(senders) && Finishes(Ids(senders), ready, maxPer, |items|)
    modifies senders`totalSent
    ensures fresh(run) && run.roomId == room.id && run.startTime == startTime
    ensures run.endTime == Some(endTime)
    // the schedule: round-robin over the ready senders, bursts of at most maxPer
    ensures slots == RunSlots(Ids(senders), ready, maxPer, |items|, cycles)
    ensures |slots| == |items| && |log| == |items| && |calls| == |items|
    // exactly one attempt per item, in source order, whatever its outcome
    ensures forall i :: 0 <= i < |items| ==>
              slots[i] < |senders| &&
              calls[i] == Call(senders[slots[i]].id, items[i].number, items[i].text) &&
              log[i] == Record(room.id, senders[slots[i]].id, items[i], OutcomeAt(failures, i))
    // the counters
    ensures run.totalSentInProcess == Successes(log)
    ensures forall j :: 0 <= j < |senders| ==>
              senders[j].totalSent == old(senders[j].totalSent) + SuccessesBy(log, senders[j].id)
    ensures SuccessesOf(log, Ids(senders)) == run.totalSentInProcess
    ensures forall j :: 0 <= j < |senders| ==>
              senders[j].phoneNumber == old(senders[j].phoneNumber) &&
              senders[j].isActive == old(senders[j].isActive)
  {
    ghost var before := Totals(senders);
    ghost var ids := Ids(senders);
    run := new ProcessLog(room.id, startTime);
    var sentCount;
    log, sentCount, cycles, slots, calls := RunCycles(room, senders, items, maxPer, ready, failures, before);
    LoggedBySenders(room.id, senders, items, failures, slots, calls, log);
    RunSuccessesBySender(room.id, senders, items, failures, slots, calls, log);
    TalliedCounters(senders, before, log);
    run.endTime := Some(endTime);
    run.totalSentInProcess := sentCount;
  }
}
