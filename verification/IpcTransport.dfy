/** The two lock-free channels of the shared region, as interleaved atomic steps
    of one producer and one consumer (src/include/machine/IpcProtocol.h
    ipcTryPush/ipcTryPop). */
module IpcRing {

  /** `values` has one slot more than the ring's capacity. */
  datatype Storage<T> = Storage(values: seq<T>, head: nat, tail: nat)

  datatype Producer<T> =
    | Ready
    | HeadLoaded(value: T, current: nat)
    | Granted(value: T, current: nat)     // the tail load left room
    | Copied(value: T, current: nat)

  datatype Consumer<T> =
    | Waiting
    | TailLoaded(current: nat)
    | Available(current: nat)             // the head load found a value
    | Taken(value: T, current: nat)

  /** `sent` and `received` list the completed pushes and pops; `refused` and
      `missed` the queue length at every failed push and pop. */
  datatype System<T> = System(
    storage: Storage<T>, producer: Producer<T>, consumer: Consumer<T>,
    sent: seq<T>, received: seq<T>, refused: seq<int>, missed: seq<int>)

  datatype Step<T> = Push(value: T) | Pop

  function Initial<T>(blank: seq<T>): System<T> {
    System(Storage(blank, 0, 0), Ready, Waiting, [], [], [], [])
  }

  function Advance(size: nat, index: nat): nat { if index + 1 == size then 0 else index + 1 }

  function Queued<T>(s: System<T>): int { |s.sent| - |s.received| }

  function PushStep<T>(s: System<T>, value: T): System<T>
    requires InRange(s)
  {
    var size := |s.storage.values|;
    match s.producer
    case Ready => s.(producer := HeadLoaded(value, s.storage.head))
    case HeadLoaded(v, current) =>
      if Advance(size, current) == s.storage.tail then s.(producer := Ready, refused := s.refused + [Queued(s)])
      else s.(producer := Granted(v, current))
    case Granted(v, current) =>
      s.(storage := s.storage.(values := s.storage.values[current := v]), producer := Copied(v, current))
    case Copied(v, current) =>
      s.(storage := s.storage.(head := Advance(size, current)), producer := Ready, sent := s.sent + [v])
  }

  function PopStep<T>(s: System<T>): System<T>
    requires InRange(s)
  {
    var size := |s.storage.values|;
    match s.consumer
    case Waiting => s.(consumer := TailLoaded(s.storage.tail))
    case TailLoaded(current) =>
      if current == s.storage.head then s.(consumer := Waiting, missed := s.missed + [Queued(s)])
      else s.(consumer := Available(current))
    case Available(current) => s.(consumer := Taken(s.storage.values[current], current))
    case Taken(v, current) =>
      s.(storage := s.storage.(tail := Advance(size, current)), consumer := Waiting, received := s.received + [v])
  }

  function Next<T>(s: System<T>, step: Step<T>): System<T>
    requires InRange(s)
  {
    match step
    case Push(value) => PushStep(s, value)
    case Pop => PopStep(s)
  }

  /** Every index a thread may use is a slot. */
  predicate InRange<T>(s: System<T>) {
    var size := |s.storage.values|;
    && (s.producer.HeadLoaded? || s.producer.Granted? || s.producer.Copied? ==> s.producer.current < size)
    && (s.consumer.TailLoaded? || s.consumer.Available? || s.consumer.Taken? ==> s.consumer.current < size)
    && s.storage.head < size && s.storage.tail < size
  }

  /** The slots between tail and head hold the values sent and not yet received. */
  ghost predicate Holds<T>(s: System<T>)
    requires |s.storage.values| > 0
  {
    forall k | |s.received| <= k < |s.sent| :: s.storage.values[Slot(k, |s.storage.values|)] == s.sent[k]
  }

  /** The slot of the k-th value: one step of Advance a value. */
  function Slot(k: nat, size: nat): (r: nat)
    requires size > 0
    ensures r < size
  {
    if k == 0 then 0 else Advance(size, Slot(k - 1, size))
  }

  ghost predicate Ok<T>(s: System<T>) {
    var size := |s.storage.values|;
    && size > 0
    && InRange(s)
    && s.received <= s.sent && Queued(s) < size
    && s.storage.head == Slot(|s.sent|, size) && s.storage.tail == Slot(|s.received|, size)
    && Holds(s)
    && ProducerOk(s) && ConsumerOk(s)
    && (forall i | 0 <= i < |s.refused| :: s.refused[i] == size - 1)
    && (forall i | 0 <= i < |s.missed| :: s.missed[i] == 0)
  }

  ghost predicate ProducerOk<T>(s: System<T>)
    requires |s.storage.values| > 0 && InRange(s)
  {
    match s.producer
    case Ready => true
    case HeadLoaded(_, current) => current == s.storage.head
    case Granted(_, current) => current == s.storage.head && Queued(s) < |s.storage.values| - 1
    case Copied(v, current) =>
      current == s.storage.head && Queued(s) < |s.storage.values| - 1 && s.storage.values[current] == v
  }

  ghost predicate ConsumerOk<T>(s: System<T>)
    requires |s.storage.values| > 0 && InRange(s)
  {
    match s.consumer
    case Waiting => true
    case TailLoaded(current) => current == s.storage.tail
    case Available(current) => current == s.storage.tail && Queued(s) > 0
    case Taken(v, current) => current == s.storage.tail && Queued(s) > 0 && v == s.sent[|s.received|]
  }

  /** Slots repeat after exactly one lap. */
  lemma {:induction false} SlotOffset(size: nat, a: nat, d: nat)
    requires size > 0 && d <= size
    ensures Slot(a + d, size) == (if Slot(a, size) + d < size then Slot(a, size) + d else Slot(a, size) + d - size)
    decreases d
  {
    if d > 0 {
      SlotOffset(size, a, d - 1);
    }
  }

  /** The producer is refused exactly when the ring holds its capacity. */
  lemma FullExactly<T>(s: System<T>)
    requires Ok(s)
    ensures Advance(|s.storage.values|, s.storage.head) == s.storage.tail
            <==> Queued(s) == |s.storage.values| - 1
  {
    var size := |s.storage.values|;
    SlotOffset(size, |s.received|, Queued(s) + 1);
    assert |s.received| + (Queued(s) + 1) == |s.sent| + 1;
  }

  /** The consumer misses exactly when the ring is empty. */
  lemma EmptyExactly<T>(s: System<T>)
    requires Ok(s)
    ensures s.storage.tail == s.storage.head <==> Queued(s) == 0
  {
    if Queued(s) > 0 {
      SlotOffset(|s.storage.values|, |s.received|, Queued(s));
    }
  }

  lemma PushKeepsOk<T>(s: System<T>, value: T)
    requires Ok(s)
    ensures Ok(PushStep(s, value))
  {
    FullExactly(s);
    var n := PushStep(s, value);
    var size := |s.storage.values|;
    if s.producer.Granted? || s.producer.Copied? {
      forall k | |n.received| <= k < |n.sent|
        ensures n.storage.values[Slot(k, size)] == n.sent[k]
      {
        if k < |s.sent| { SlotOffset(size, k, |s.sent| - k); }
      }
    }
  }

  lemma PopKeepsOk<T>(s: System<T>)
    requires Ok(s)
    ensures Ok(PopStep(s))
  {
    EmptyExactly(s);
  }

  /** A run of both threads; the invariant keeps every step defined. */
  ghost function Run<T>(s: System<T>, steps: seq<Step<T>>): (r: System<T>)
    requires Ok(s)
    ensures Ok(r) && |r.storage.values| == |s.storage.values|
    decreases |steps|
  {
    if steps == [] then s
    else
      match steps[0] {
        case Push(value) => PushKeepsOk(s, value); Run(PushStep(s, value), steps[1..])
        case Pop => PopKeepsOk(s); Run(PopStep(s), steps[1..])
      }
  }

  /** Over every interleaving, the ring is a bounded first-in first-out queue:
      pops return the pushed values in order, once each; the capacity is never
      exceeded; a push fails only when full and a pop only when empty, both at
      the moment of the deciding load; and the slot being written is never the
      slot being read. */
  lemma RingIsAQueue<T>(blank: seq<T>, steps: seq<Step<T>>)
    requires |blank| > 0
    ensures var s := Run(Initial(blank), steps);
            && s.received <= s.sent && |s.sent| - |s.received| <= |blank| - 1
            && (forall i | 0 <= i < |s.refused| :: s.refused[i] == |blank| - 1)
            && (forall i | 0 <= i < |s.missed| :: s.missed[i] == 0)
            && (s.producer.Granted? && s.consumer.Available? ==> s.producer.current != s.consumer.current)
  {
    var s := Run(Initial(blank), steps);
    if s.producer.Granted? && s.consumer.Available? {
      SlotOffset(|blank|, |s.received|, Queued(s));
    }
  }
}

/** The latest-value mailbox that carries lifecycle demands, as interleaved
    atomic steps of one producer and one consumer over three slots
    (src/include/machine/SharedLatestValueMailbox.h). */
module LatestValueMailbox {

  import opened Text

  /** A slot being overwritten is None: its bytes are not a value. */
  datatype Storage<T> = Storage(slots: seq<Option<T>>, middle: nat, dirty: bool)

  datatype Producer<T> =
    | Ready
    | Writing(value: T)
    | Written(value: T)

  datatype Consumer =
    | Waiting
    | SeenDirty
    | Swapped       // the front slot now belongs to the consumer and is copied next

  /** `back` and `front` are the slots the two threads own. `published` lists the
      exchanged values; `swapped` counts those published at the consumer's last
      exchange; `taken` and `positions` are the values returned and their
      positions; `missed` records, at each empty answer, the values published
      since the last exchange. */
  datatype System<T> = System(
    storage: Storage<T>, producer: Producer<T>, back: nat, consumer: Consumer, front: nat,
    published: seq<T>, swapped: nat, taken: seq<Option<T>>, positions: seq<nat>, missed: seq<int>)

  datatype Step<T> = Publish(value: T) | Consume

  function Initial<T>(zero: T): System<T> {
    System(Storage([Some(zero), Some(zero), Some(zero)], 1, false), Ready, 2, Waiting, 0, [], 0, [], [], [])
  }

  ghost predicate Ok<T>(s: System<T>) {
    && |s.storage.slots| == 3
    && s.back < 3 && s.front < 3 && s.storage.middle < 3
    && s.back != s.front && s.back != s.storage.middle && s.front != s.storage.middle
    && (forall i | 0 <= i < 3 :: s.storage.slots[i].None? ==> i == s.back && s.producer.Writing?)
    && (s.producer.Written? ==> s.storage.slots[s.back] == Some(s.producer.value))
    && s.swapped <= |s.published|
    && (s.storage.dirty <==> s.swapped < |s.published|)
    && (s.storage.dirty ==> s.storage.slots[s.storage.middle] == Some(s.published[|s.published| - 1]))
    && (s.consumer.SeenDirty? ==> s.storage.dirty)
    && (s.consumer.Swapped? ==> s.swapped > 0 && s.storage.slots[s.front] == Some(s.published[s.swapped - 1]))
    && TakenOk(s)
    && (forall i | 0 <= i < |s.missed| :: s.missed[i] == 0)
  }

  /** The values returned were published, whole, and ever newer. */
  ghost predicate TakenOk<T>(s: System<T>) {
    && |s.taken| == |s.positions|
    && (forall i | 0 <= i < |s.taken| ::
          s.positions[i] < |s.published| && s.taken[i] == Some(s.published[s.positions[i]]))
    && (forall i, j | 0 <= i < j < |s.positions| :: s.positions[i] < s.positions[j])
    && (s.positions != [] ==> s.positions[|s.positions| - 1] < s.swapped)
    && (s.positions != [] && s.consumer.Swapped? ==> s.positions[|s.positions| - 1] < s.swapped - 1)
  }

  function PublishStep<T>(s: System<T>, value: T): System<T>
    requires s.back < |s.storage.slots|
  {
    match s.producer
    case Ready => s.(producer := Writing(value), storage := s.storage.(slots := s.storage.slots[s.back := None]))
    case Writing(v) => s.(producer := Written(v), storage := s.storage.(slots := s.storage.slots[s.back := Some(v)]))
    case Written(v) =>
      s.(producer := Ready, back := s.storage.middle,
         storage := s.storage.(middle := s.back, dirty := true), published := s.published + [v])
  }

  function ConsumeStep<T>(s: System<T>): System<T>
    requires s.front < |s.storage.slots|
  {
    match s.consumer
    case Waiting =>
      if s.storage.dirty then s.(consumer := SeenDirty)
      else s.(missed := s.missed + [|s.published| - s.swapped])
    case SeenDirty =>
      s.(consumer := Swapped, front := s.storage.middle,
         storage := s.storage.(middle := s.front, dirty := false), swapped := |s.published|)
    case Swapped =>
      s.(consumer := Waiting, taken := s.taken + [s.storage.slots[s.front]],
         positions := s.positions + [if s.swapped > 0 then s.swapped - 1 else 0])
  }

  lemma PublishKeepsOk<T>(s: System<T>, value: T)
    requires Ok(s)
    ensures Ok(PublishStep(s, value))
  {}

  lemma ConsumeKeepsOk<T>(s: System<T>)
    requires Ok(s)
    ensures Ok(ConsumeStep(s))
  {}

  ghost function Run<T>(s: System<T>, steps: seq<Step<T>>): (r: System<T>)
    requires Ok(s)
    ensures Ok(r)
    decreases |steps|
  {
    if steps == [] then s
    else
      match steps[0] {
        case Publish(value) => PublishKeepsOk(s, value); Run(PublishStep(s, value), steps[1..])
        case Consume => ConsumeKeepsOk(s); Run(ConsumeStep(s), steps[1..])
      }
  }

  /** Over every interleaving: the three slots are always owned by three
      different parties, so the consumer never copies a slot being written;
      every value returned is one whole published value, strictly newer than
      the one before; an empty answer means nothing was published since; and a
      consumer past its exchange holds the value that was latest at it. */
  lemma MailboxKeepsLatest<T>(zero: T, steps: seq<Step<T>>)
    ensures var s := Run(Initial(zero), steps);
            && s.back != s.front && s.back != s.storage.middle && s.front != s.storage.middle
            && |s.taken| == |s.positions|
            && (forall i | 0 <= i < |s.taken| ::
                  s.positions[i] < |s.published| && s.taken[i] == Some(s.published[s.positions[i]]))
            && (forall i, j | 0 <= i < j < |s.positions| :: s.positions[i] < s.positions[j])
            && (forall i | 0 <= i < |s.missed| :: s.missed[i] == 0)
            && (s.consumer.Swapped? ==>
                  0 < s.swapped <= |s.published| && s.storage.slots[s.front] == Some(s.published[s.swapped - 1]))
  {
    assert Ok(Run(Initial(zero), steps));
  }
}
