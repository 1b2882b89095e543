/** kernel/io/input_queue.cpp: a ring of characters between an interrupt handler, which
    pushes, and kernel code, which reads and clears, without a lock.

    Every load and store of a shared cell is a step of its own, and the steps of the two
    parties interleave in any way. */
module InputQueue {

  const CAPACITY: nat := 256

  /** Where `push` is. */
  datatype Producer =
    | NotPushing
    | GotHead(value: char, head: nat)
    | GotRoom(value: char, head: nat)
    | Stored(value: char, head: nat)

  /** Where `read`, with `left` characters still wanted, or `clear` is. */
  datatype Consumer =
    | NotReading
    | Wanting(left: nat)
    | Comparing(left: nat, tail: nat)
    | Filled(left: nat)
    | Indexed(left: nat, tail: nat)
    | Taken(left: nat, c: char)
    | Advancing(left: nat, c: char, tail: nat)
    | Clearing(head: nat)

  /** The shared cells, the two parties, and what has happened so far: the characters
      accepted by `push`, and those `read` has handed out or `clear` has thrown away. */
  datatype State = State(
    head: nat,
    tail: nat,
    buffer: seq<char>,
    producer: Producer,
    consumer: Consumer,
    accepted: seq<char>,
    removed: seq<char>)

  function NextIndex(i: nat): nat { (i + 1) % CAPACITY }

  ghost predicate Init(s: State) {
    && s.head == 0 && s.tail == 0 && |s.buffer| == CAPACITY
    && s.producer.NotPushing? && s.consumer.NotReading?
    && s.accepted == [] && s.removed == []
  }

  // ------------------------------------------------------------------------ push

  /** `push` loads head. */
  ghost predicate LoadHead(s: State, t: State, value: char) {
    s.producer.NotPushing? && t == s.(producer := GotHead(value, s.head))
  }

  /** ... loads tail and finds the ring full, or not. */
  ghost predicate CheckRoom(s: State, t: State) {
    && s.producer.GotHead?
    && t == s.(producer := if NextIndex(s.producer.head) == s.tail then NotPushing
               else GotRoom(s.producer.value, s.producer.head))
  }

  /** ... stores the character. */
  ghost predicate StoreChar(s: State, t: State) {
    && s.producer.GotRoom? && s.producer.head < |s.buffer|
    && t == s.(buffer := s.buffer[s.producer.head := s.producer.value], producer :=
               Stored(s.producer.value, s.producer.head))
  }

  /** ... and publishes it. */
  ghost predicate StoreHead(s: State, t: State) {
    && s.producer.Stored?
    && t == s.(head := NextIndex(s.producer.head), accepted := s.accepted + [s.producer.value], producer := NotPushing)
  }

  ghost predicate ProducerStep(s: State, t: State) {
    (exists value :: LoadHead(s, t, value)) || CheckRoom(s, t) || StoreChar(s, t) || StoreHead(s, t)
  }

  // -------------------------------------------------------------- read and clear

  ghost predicate StartRead(s: State, t: State, length: nat) {
    s.consumer.NotReading? && t == s.(consumer := Wanting(length))
  }

  /** The loop condition of `read`: enough already, or tail is loaded. */
  ghost predicate LoadTail(s: State, t: State) {
    && s.consumer.Wanting?
    && t == s.(consumer := if s.consumer.left == 0 then NotReading else Comparing(s.consumer.left, s.tail))
  }

  /** ... and compared with head. */
  ghost predicate CompareHead(s: State, t: State) {
    && s.consumer.Comparing?
    && t == s.(consumer := if s.consumer.tail == s.head then NotReading else Filled(s.consumer.left))
  }

  ghost predicate LoadIndex(s: State, t: State) {
    s.consumer.Filled? && t == s.(consumer := Indexed(s.consumer.left, s.tail))
  }

  ghost predicate LoadChar(s: State, t: State) {
    && s.consumer.Indexed? && s.consumer.tail < |s.buffer|
    && t == s.(consumer := Taken(s.consumer.left, s.buffer[s.consumer.tail]))
  }

  ghost predicate ReloadTail(s: State, t: State) {
    s.consumer.Taken? && t == s.(consumer := Advancing(s.consumer.left, s.consumer.c, s.tail))
  }

  ghost predicate StoreTail(s: State, t: State) {
    && s.consumer.Advancing? && s.consumer.left > 0
    && t == s.(tail := NextIndex(s.consumer.tail), removed := s.removed + [s.consumer.c], consumer :=
               Wanting(s.consumer.left - 1))
  }

  /** `clear` loads head. */
  ghost predicate StartClear(s: State, t: State) {
    s.consumer.NotReading? && t == s.(consumer := Clearing(s.head))
  }

  /** ... and stores it as tail: the characters from tail up to it are gone. */
  ghost predicate FinishClear(s: State, t: State) {
    && s.consumer.Clearing? && |s.buffer| == CAPACITY && s.tail < CAPACITY && s.consumer.head < CAPACITY
    && t == s.(tail := s.consumer.head, removed :=
               s.removed + Slots(s.buffer, s.tail, Distance(s.tail, s.consumer.head)), consumer := NotReading)
  }

  ghost predicate ConsumerStep(s: State, t: State) {
    || (exists length :: StartRead(s, t, length))
    || LoadTail(s, t) || CompareHead(s, t) || LoadIndex(s, t) || LoadChar(s, t) || ReloadTail(s, t) || StoreTail(s, t)
    || StartClear(s, t) || FinishClear(s, t)
  }

  ghost predicate Step(s: State, t: State) { ProducerStep(s, t) || ConsumerStep(s, t) }

  /** `available`: the ring distance from `from` to `to`. */
  function Distance(from: nat, to: nat): (r: nat)
    requires from < CAPACITY && to < CAPACITY
    ensures r < CAPACITY && (from + r) % CAPACITY == to
  {
    (to + CAPACITY - from) % CAPACITY
  }

  /** The `n` slots from `from` on, around the ring. */
  function Slots(buffer: seq<char>, from: nat, n: nat): (r: seq<char>)
    requires |buffer| == CAPACITY && from < CAPACITY
    ensures |r| == n
    decreases n
  {
    if n == 0 then [] else [buffer[from]] + Slots(buffer, NextIndex(from), n - 1)
  }

  // ------------------------------------------------------------- the invariant

  /** The ring: what was accepted and not removed sits in the slots from tail to head. */
  ghost predicate Ring(s: State) {
    var h, t := |s.accepted|, |s.removed|;
    && |s.buffer| == CAPACITY
    && t <= h < t + CAPACITY
    && s.head == h % CAPACITY && s.tail == t % CAPACITY
    && s.removed == s.accepted[..t]
    && forall k :: t <= k < h ==> s.buffer[k % CAPACITY] == s.accepted[k]
  }

  /** What the producer knows. */
  ghost predicate ProducerOk(s: State) {
    match s.producer
    case NotPushing => true
    case GotHead(_, h) => h == s.head
    case GotRoom(_, h) => h == s.head && |s.accepted| - |s.removed| < CAPACITY - 1
    case Stored(v, h) => h == s.head && |s.accepted| - |s.removed| < CAPACITY - 1 && h < |s.buffer| && s.buffer[h] == v
  }

  /** What the consumer knows. */
  ghost predicate ConsumerOk(s: State) {
    match s.consumer
    case NotReading => true
    case Wanting(_) => true
    case Comparing(n, t) => n > 0 && t == s.tail
    case Filled(n) => n > 0 && |s.removed| < |s.accepted|
    case Indexed(n, t) => n > 0 && t == s.tail && |s.removed| < |s.accepted|
    case Taken(n, c) => n > 0 && |s.removed| < |s.accepted| && c == s.accepted[|s.removed|]
    case Advancing(n, c, t) => n > 0 && t == s.tail && |s.removed| < |s.accepted| && c == s.accepted[|s.removed|]
    case Clearing(h) => exists x :: |s.removed| <= x <= |s.accepted| && h == x % CAPACITY
  }

  ghost predicate Ok(s: State) { Ring(s) && ProducerOk(s) && ConsumerOk(s) }

  lemma InitOk(s: State)
    requires Init(s)
    ensures Ok(s)
  {
  }

  /** Two positions less than a round apart share a slot only if they are one. */
  lemma SameSlot(i: nat, j: nat)
    requires i <= j < i + CAPACITY && i % CAPACITY == j % CAPACITY
    ensures i == j
  {
  }

  /** The slot `push` writes is not one that holds an unread character. */
  lemma NotOverwritten(s: State, k: nat)
    requires Ok(s) && s.producer.GotRoom? && |s.removed| <= k < |s.accepted|
    ensures s.producer.head != k % CAPACITY
  {
    if s.producer.head == k % CAPACITY { SameSlot(k, |s.accepted|); }
  }

  lemma ProducerKeeps(s: State, t: State)
    requires Ok(s) && ProducerStep(s, t)
    ensures Ok(t)
  {
    if StoreChar(s, t) {
      forall k | |s.removed| <= k < |s.accepted|
             ensures t.buffer[k % CAPACITY] == s.accepted[k] { NotOverwritten(s, k); }
    } else if CheckRoom(s, t) {
      if NextIndex(s.head) != s.tail { RoomSeen(s); }
    } else if StoreHead(s, t) {
      NextSlot(|s.accepted|);
    }
  }

  lemma NextSlot(i: nat)
    ensures NextIndex(i % CAPACITY) == (i + 1) % CAPACITY
  {
  }

  /** A slot after head that is not tail means there is room. */
  lemma RoomSeen(s: State)
    requires Ok(s) && NextIndex(s.head) != s.tail
    ensures |s.accepted| - |s.removed| < CAPACITY - 1
  {
    NextSlot(|s.accepted|);
    if |s.accepted| - |s.removed| == CAPACITY - 1 { RoundTrip(|s.removed|); }
  }

  lemma RoundTrip(i: nat)
    ensures (i + CAPACITY) % CAPACITY == i % CAPACITY
  {
  }

  lemma ConsumerKeeps(s: State, t: State)
    requires Ok(s) && ConsumerStep(s, t)
    ensures Ok(t)
  {
    if CompareHead(s, t) {
      if |s.removed| == |s.accepted| { assert s.head == s.tail; }
    } else if StoreTail(s, t) {
      NextSlot(|s.removed|);
    } else if FinishClear(s, t) {
      Cleared(s, t);
    }
  }

  /** What `clear` throws away is what was accepted next. */
  lemma Cleared(s: State, t: State)
    requires Ok(s) && FinishClear(s, t)
    ensures Ok(t)
  {
    var x :| |s.removed| <= x <= |s.accepted| && s.consumer.head == x % CAPACITY;
    var n := Distance(s.tail, s.consumer.head);
    DistanceIs(|s.removed|, x);
    SlotsAre(s, |s.removed|, x);
    assert s.accepted[..|s.removed|] + s.accepted[|s.removed|..x] == s.accepted[..x];
  }

  lemma DistanceIs(i: nat, j: nat)
    requires i <= j < i + CAPACITY
    ensures Distance(i % CAPACITY, j % CAPACITY) == j - i
  {
  }

  lemma {:induction false} SlotsAre(s: State, i: nat, j: nat)
    requires Ring(s) && |s.removed| <= i <= j <= |s.accepted|
    ensures Slots(s.buffer, i % CAPACITY, j - i) == s.accepted[i..j]
    decreases j - i
  {
    if i < j {
      NextSlot(i);
      SlotsAre(s, i + 1, j);
      assert s.accepted[i..j] == [s.accepted[i]] + s.accepted[i + 1..j];
    }
  }

  /** `push` drops a character only when 255 are waiting, and `read` gives up only when none
      is, at the moment each looks. */
  lemma OnlyWhenFullOrEmpty(s: State)
    requires Ok(s)
    ensures NextIndex(s.head) == s.tail <==> |s.accepted| - |s.removed| == 255
    ensures s.tail == s.head <==> |s.removed| == |s.accepted|
  {
    NextSlot(|s.accepted|);
    if NextIndex(s.head) == s.tail { SameSlot(|s.removed|,
                                              |s.accepted| + 1 - if |s.accepted| + 1 >= |s.removed| + CAPACITY
                                              then CAPACITY else 0); }
    if |s.accepted| - |s.removed| == 255 { RoundTrip(|s.removed|); }
    if s.tail == s.head { SameSlot(|s.removed|, |s.accepted|); }
  }

  // -------------------------------------------------------------------- all runs

  ghost predicate Run(run: seq<State>) {
    && run != [] && Init(run[0])
    && forall i :: 0 <= i < |run| - 1 ==> Step(run[i], run[i + 1])
  }

  lemma {:induction false} RunOk(run: seq<State>, i: nat)
    requires Run(run) && i < |run|
    ensures Ok(run[i])
  {
    if i == 0 {
      InitOk(run[0]);
    } else {
      RunOk(run, i - 1);
      assert Step(run[i - 1], run[i - 1 + 1]);
      if ProducerStep(run[i - 1], run[i]) { ProducerKeeps(run[i - 1], run[i]); }
         else { ConsumerKeeps(run[i - 1], run[i]); }
    }
  }

  /** However the two parties interleave: what was read or cleared is, in order, the first
      part of what was accepted; the rest, at most 255 characters, sits unread in the ring,
      and `available` is its number; and no step overwrites any of it. */
  lemma RunSafe(run: seq<State>, i: nat)
    requires Run(run) && i < |run|
    ensures var s := run[i];
            && s.removed <= s.accepted
            && |s.accepted| - |s.removed| <= 255
            && |s.buffer| == CAPACITY && s.head < CAPACITY && s.tail < CAPACITY
            && Distance(s.tail, s.head) == |s.accepted| - |s.removed|
            && s.removed + Slots(s.buffer, s.tail, Distance(s.tail, s.head)) == s.accepted
    ensures i + 1 < |run| && run[i].producer.GotRoom? && StoreChar(run[i], run[i + 1]) ==>
              forall k :: |run[i].removed| <= k < |run[i].accepted| ==> k % CAPACITY != run[i].producer.head
  {
    RunOk(run, i);
    var s := run[i];
    DistanceIs(|s.removed|, |s.accepted|);
    SlotsAre(s, |s.removed|, |s.accepted|);
    assert s.accepted == s.accepted[..|s.removed|] + s.accepted[|s.removed|..|s.accepted|];
    if s.producer.GotRoom? {
      forall k | |s.removed| <= k < |s.accepted| ensures k % CAPACITY != s.producer.head { NotOverwritten(s, k); }
    }
  }
}
