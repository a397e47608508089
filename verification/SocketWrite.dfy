/** Writing a whole buffer to a socket that takes it in pieces. */
module SocketWrite {
  import opened Bytes

  /** What one write to the socket comes to: some bytes taken; try again; interrupted by a signal; failed;
      nothing taken without a reason to try again. */
  datatype Outcome = Took(k: nat) | Again | Interrupted | Broken | Zero

  /** The length written, -1 for an error, or no result because the outcomes given do not decide it. */
  datatype Answer = Returned(n: int) | StillTrying

  /** What a write of left bytes comes to when the socket behaves like this; the socket never takes more
      than it is given. */
  function Fate(outcomes: seq<Outcome>, len: nat, left: nat): Answer
    requires left <= len
  {
    if left == 0 then Returned(len)
    else if outcomes == [] then StillTrying
    else match outcomes[0]
      case Took(k) => Fate(outcomes[1..], len, if k <= left then left - k else 0)
      case Again => Fate(outcomes[1..], len, left)
      case Interrupted => Returned(-1)
      case Broken => Returned(-1)
      case Zero => Returned(len - left)
  }

  /** The bytes the socket has taken by then. */
  function TakenBy(outcomes: seq<Outcome>, left: nat): nat
  {
    if left == 0 || outcomes == [] then 0
    else match outcomes[0]
      case Took(k) => (if k <= left then k else left) + TakenBy(outcomes[1..], if k <= left then left - k else 0)
      case Again => TakenBy(outcomes[1..], left)
      case _ => 0
  }

  /** Outcomes after which the loop goes on. */
  predicate Benign(o: Outcome)
  {
    o.Took? || o.Again?
  }

  function Sum(outcomes: seq<Outcome>): nat
  {
    if outcomes == [] then 0 else (if outcomes[0].Took? then outcomes[0].k else 0) + Sum(outcomes[1..])
  }

  /** The write loop. The socket's stream grows by precisely the prefix of the data that was taken. */
  method Writen(data: seq<byte>, outcomes: seq<Outcome>, sent: seq<byte>) returns (a: Answer, out: seq<byte>)
    ensures a == Fate(outcomes, |data|, |data|)
    ensures TakenBy(outcomes, |data|) <= |data| && out == sent + data[..TakenBy(outcomes, |data|)]
  {
    var ptr, i := 0, 0;
    out := sent;
    while ptr < |data|
      invariant 0 <= ptr <= |data| && 0 <= i <= |outcomes|
      invariant Fate(outcomes, |data|, |data|) == Fate(outcomes[i..], |data|, |data| - ptr)
      invariant TakenBy(outcomes, |data|) == ptr + TakenBy(outcomes[i..], |data| - ptr)
      invariant out == sent + data[..ptr]
      decreases |outcomes| - i
    {
      if i == |outcomes| {
        return StillTrying, out;
      }
      var o := outcomes[i];
      assert outcomes[i..][0] == o && outcomes[i..][1..] == outcomes[i + 1..];
      i := i + 1;
      match o {
        case Took(k) =>
          var n := if k <= |data| - ptr then k else |data| - ptr;
          out := out + data[ptr..ptr + n];
          ptr := ptr + n;
        case Again =>
        case Interrupted =>
          return Returned(-1), out;
        case Broken =>
          return Returned(-1), out;
        case Zero =>
          return Returned(ptr), out;
      }
    }
    a := Returned(|data|);
  }

  /** An answer that is no error is precisely the number of bytes that are out. */
  lemma {:induction false} AnswerIsTaken(outcomes: seq<Outcome>, len: nat, left: nat)
    requires left <= len
    ensures TakenBy(outcomes, left) <= left
    ensures var a := Fate(outcomes, len, left);
      a.Returned? && a.n >= 0 ==> a.n == len - left + TakenBy(outcomes, left)
    ensures var a := Fate(outcomes, len, left); a.Returned? && a.n < 0 ==> a.n == -1
    decreases |outcomes|
  {
    if left > 0 && outcomes != [] && Benign(outcomes[0]) {
      var o := outcomes[0];
      AnswerIsTaken(outcomes[1..], len, if o.Again? then left else if o.k <= left then left - o.k else 0);
    }
  }

  /** The loop reports the full length exactly when some prefix of the outcomes consists of bytes taken
      and retries only and adds up to the whole length: a single interrupting signal before that makes it
      report an error, however many bytes have gone out. */
  lemma {:induction false} FullExactly(outcomes: seq<Outcome>, len: nat, left: nat)
    requires left <= len
    ensures Fate(outcomes, len, left) == Returned(len) <==>
      exists i :: 0 <= i <= |outcomes| && (forall j :: 0 <= j < i ==> Benign(outcomes[j])) && Sum(outcomes[..i]) >= left
    decreases |outcomes|
  {
    if left == 0 {
      assert Sum(outcomes[..0]) >= left;
    } else if outcomes != [] && Benign(outcomes[0]) {
      var o, rest := outcomes[0], outcomes[1..];
      var left' := if o.Again? then left else if o.k <= left then left - o.k else 0;
      FullExactly(rest, len, left');
      if i :| 0 <= i <= |rest| && (forall j :: 0 <= j < i ==> Benign(rest[j])) && Sum(rest[..i]) >= left' {
        assert outcomes[..i + 1] == [o] + rest[..i];
        assert Sum(outcomes[..i + 1]) >= left;
        assert forall j :: 0 <= j < i + 1 ==> Benign(outcomes[j]);
      }
      if i :| 0 <= i <= |outcomes| && (forall j :: 0 <= j < i ==> Benign(outcomes[j])) && Sum(outcomes[..i]) >= left {
        assert i > 0;
        assert outcomes[..i][1..] == rest[..i - 1];
        assert Sum(rest[..i - 1]) >= left';
        assert forall j :: 0 <= j < i - 1 ==> Benign(rest[j]) by {
          assert forall j :: 0 <= j < i - 1 ==> rest[j] == outcomes[j + 1];
        }
      }
    }
  }

  /** The bytes that are out, for any behaviour of the socket: as soon as an answer ends the write, or no more
      come, those taken before, and never more than were left. */
  lemma {:induction false} TakenExactly(outcomes: seq<Outcome>, left: nat, i: nat)
    requires i <= |outcomes| && (forall j :: 0 <= j < i ==> Benign(outcomes[j]))
    requires i < |outcomes| ==> !Benign(outcomes[i])
    ensures TakenBy(outcomes, left) == if Sum(outcomes[..i]) <= left then Sum(outcomes[..i]) else left
    decreases i
  {
    if i > 0 {
      var o, rest := outcomes[0], outcomes[1..];
      assert outcomes[..i][1..] == rest[..i - 1];
      assert forall j :: 0 <= j < i - 1 ==> rest[j] == outcomes[j + 1];
      TakenExactly(rest, if o.Again? then left else if o.k <= left then left - o.k else 0, i - 1);
    }
  }

  /** ... and what the answer is then: the full length when all is out; otherwise an error when a signal or a
      failure ended the write, the bytes out so far when the socket took none without a reason, and no answer yet
      when nothing ended it. */
  lemma {:induction false} FateExactly(outcomes: seq<Outcome>, len: nat, left: nat, i: nat)
    requires left <= len
    requires i <= |outcomes| && (forall j :: 0 <= j < i ==> Benign(outcomes[j]))
    requires i < |outcomes| ==> !Benign(outcomes[i])
    ensures Fate(outcomes, len, left) ==
      if Sum(outcomes[..i]) >= left then Returned(len)
      else if i == |outcomes| then StillTrying
      else if outcomes[i].Zero? then Returned(len - left + Sum(outcomes[..i]))
      else Returned(-1)
    decreases i
  {
    if i > 0 {
      var o, rest := outcomes[0], outcomes[1..];
      assert outcomes[..i][1..] == rest[..i - 1];
      assert forall j :: 0 <= j < i - 1 ==> rest[j] == outcomes[j + 1];
      assert i < |outcomes| ==> rest[i - 1] == outcomes[i];
      FateExactly(rest, len, if o.Again? then left else if o.k <= left then left - o.k else 0, i - 1);
    }
  }

  /** What the sending loop throws away after a write is nothing exactly when the write reports the full
      length. */
  lemma {:induction false} NothingDroppedExactly(outcomes: seq<Outcome>, len: nat, left: nat)
    requires left <= len && Fate(outcomes, len, left).Returned?
    ensures TakenBy(outcomes, left) == left <==> Fate(outcomes, len, left) == Returned(len)
    decreases |outcomes|
  {
    if left > 0 && outcomes != [] && Benign(outcomes[0]) {
      var o := outcomes[0];
      NothingDroppedExactly(outcomes[1..], len, if o.Again? then left else if o.k <= left then left - o.k else 0);
    }
  }

  /** An interrupted write, for instance: one byte of two is out, and the answer is an error. */
  lemma InterruptedAfterOneByte()
    ensures var o := [Took(1), Interrupted, Took(1)];
      Fate(o, 2, 2) == Returned(-1) && TakenBy(o, 2) == 1
  {
    var o := [Took(1), Interrupted, Took(1)];
    assert o[1..][0] == Interrupted;
  }
}
