/** What growing costs over a whole run of writes and reads of one ring buffer. */
module Growth {
  import opened Bytes
  import opened CycleBuffers

  datatype Op = Write(length: nat) | Read(length: nat)

  /** Capacity, occupancy, largest occupancy so far, bytes moved by all reallocations so far. */
  datatype Meter = Meter(n: Capacity, size: nat, peak: nat, moved: nat)

  function Max(a: nat, b: nat): nat
  {
    if a < b then b else a
  }

  function Apply(m: Meter, op: Op): (m': Meter)
    requires m.size <= m.n
    ensures m'.size <= m'.n
  {
    match op
    case Write(k) =>
      var n' := Grown(m.n, m.n - m.size, k);
      Meter(n', m.size + k, Max(m.peak, m.size + k), m.moved + if n' == m.n then 0 else m.size)
    case Read(k) =>
      if k <= m.size then m.(size := m.size - k) else m  // the reader keeps waiting
  }

  predicate Paid(initial: nat, m: Meter)
  {
    && m.size <= m.n && m.size <= m.peak
    && initial <= m.n <= Max(initial, 3 * m.peak)
    && m.moved <= m.n - initial
  }

  function Exec(initial: Capacity, ops: seq<Op>): (m: Meter)
    ensures m.size <= m.n
  {
    if ops == [] then Meter(initial, 0, 0, 0)
    else Apply(Exec(initial, ops[..|ops| - 1]), ops[|ops| - 1])
  }

  lemma GrownPaid(initial: nat, m: Meter, k: nat, n': Capacity)
    requires Paid(initial, m)
    requires m.n - m.size >= k ==> n' == m.n
    requires m.n - m.size < k ==> 2 * m.n <= n' && k + m.n < n' <= k + 2 * m.n
    ensures Paid(initial, Meter(n', m.size + k, Max(m.peak, m.size + k), m.moved + if n' == m.n then 0 else m.size))
  {
  }

  lemma WritePaid(initial: nat, m: Meter, k: nat)
    requires Paid(initial, m)
    ensures Paid(initial, Apply(m, Write(k)))
  {
    GrownPaid(initial, m, k, Grown(m.n, m.n - m.size, k));
  }

  /** Over any run: capacity stays within three times the peak occupancy (or never grew), and all
      reallocations together moved no more bytes than the capacity they added. */
  lemma {:induction false} GrowthIsPaidFor(initial: Capacity, ops: seq<Op>)
    ensures Paid(initial, Exec(initial, ops))
  {
    if ops != [] {
      var m, op := Exec(initial, ops[..|ops| - 1]), ops[|ops| - 1];
      GrowthIsPaidFor(initial, ops[..|ops| - 1]);
      match op
      case Write(k) => WritePaid(initial, m, k);
      case Read(_) =>
    }
  }

  // ---------------------------------------------------------------- the meter on a ring in memory

  ghost predicate Measures(m: Meter, ring: CycleBuffer)
    reads ring
  {
    ring.n == m.n && |ring.contents| == m.size && ring.moved == m.moved
  }

  /** A write of the ring moves the meter as Apply says. */
  method MeteredWrite(ring: CycleBuffer, data: array<byte>, length: nat, ghost m: Meter)
    requires ring.Valid() && data != ring.buffer && length <= data.Length && m.size <= m.n && Measures(m, ring)
    modifies ring, ring.buffer
    ensures ring.Valid() && Measures(Apply(m, Write(length)), ring)
  {
    var _ := ring.Write(data, length);
  }

  /** So does a read that does not have to wait. */
  method MeteredRead(ring: CycleBuffer, data: array<byte>, length: nat, ghost m: Meter)
    requires ring.Valid() && data != ring.buffer && length <= data.Length && m.size <= m.n && Measures(m, ring)
    requires length <= ring.Size()
    modifies ring, data
    ensures ring.Valid() && Measures(Apply(m, Read(length)), ring)
  {
    var _ := ring.Read(data, length);
  }
}
