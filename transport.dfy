/** The two-wire bus as the driver sees it: the kernel's `i2c_client` and the
    user-space `/dev/i2c-1` file descriptor both reduce to an ordered series of
    send and receive transactions. What the device answers is not modelled; it is
    an oracle fixed when the bus is created and indexed by transaction position. */
module Transport {
  import opened Words

  /** One bus transaction: a write of `bytes`, or a read asking for `n` bytes. */
  datatype Transaction = Send(bytes: seq<byte>) | Recv(n: nat)

  /** What the transport answers to a transaction: the value `i2c_master_send`,
      `i2c_master_recv`, `write` or `read` returns (a count, or negative on error),
      and for a read the bytes it deposits in the caller's buffer. */
  datatype Reply = Reply(status: int, data: seq<byte>)

  /** The number of bytes a transaction asks to transfer. */
  function Size(t: Transaction): nat
  {
    match t
    case Send(bytes) => |bytes|
    case Recv(n) => n
  }

  /** The bytes a read of `n` deposits: at most `n` of the reply's data. */
  function Take(data: seq<byte>, n: nat): (got: seq<byte>)
    ensures |got| <= n && got <= data
    ensures |data| >= n ==> |got| == n
    ensures |data| < n ==> got == data
  {
    if |data| <= n then data else data[..n]
  }

  /** The caller's buffer `buf` after a read deposited `got` at its start. */
  function Overlay(buf: seq<byte>, got: seq<byte>): (r: seq<byte>)
    requires |got| <= |buf|
    ensures |r| == |buf|
    ensures forall i :: 0 <= i < |buf| ==> r[i] == if i < |got| then got[i] else buf[i]
  {
    got + buf[|got|..]
  }

  class Bus {
    /** Every transaction issued so far, oldest first. */
    var log: seq<Transaction>
    /** The answer the device gives to the transaction at each position. */
    const answer: nat -> Reply

    constructor (answer: nat -> Reply)
      ensures log == [] && this.answer == answer
    {
      log := [];
      this.answer := answer;
    }

    /** Issues a write of `bytes` and returns what the transport reports. */
    method Transmit(bytes: seq<byte>) returns (r: int)
      modifies this
      ensures log == old(log) + [Send(bytes)]
      ensures r == answer(|old(log)|).status
    {
      r := answer(|log|).status;
      log := log + [Send(bytes)];
    }

    /** Issues a read of `n` bytes; `got` is what lands in the caller's buffer. */
    method Receive(n: nat) returns (r: int, got: seq<byte>)
      modifies this
      ensures log == old(log) + [Recv(n)]
      ensures r == answer(|old(log)|).status
      ensures got == Take(answer(|old(log)|).data, n)
    {
      r := answer(|log|).status;
      got := Take(answer(|log|).data, n);
      log := log + [Recv(n)];
    }
  }

  /** The user-space library accepts a transaction only when the transport
      reports exactly the number of bytes asked for. */
  predicate Accepted(answer: nat -> Reply, at: nat, t: Transaction)
  {
    answer(at).status == Size(t)
  }

  /** Every transaction of `script`, started at bus position `k`, is accepted. */
  predicate AllAccepted(answer: nat -> Reply, k: nat, script: seq<Transaction>)
    decreases script
  {
    script == [] || (Accepted(answer, k, script[0]) && AllAccepted(answer, k + 1, script[1..]))
  }

  /** How many transactions of `script`, started at bus position `k`, are issued
      when every transaction must be accepted before the next one is attempted:
      all of them, or up to and including the first one that is not accepted. */
  function Issued(answer: nat -> Reply, k: nat, script: seq<Transaction>): (n: nat)
    ensures n <= |script|
    ensures script != [] ==> n > 0
    decreases script
  {
    if script == [] then 0
    else if !Accepted(answer, k, script[0]) then 1
    else 1 + Issued(answer, k + 1, script[1..])
  }

  /** Issued stops exactly at the first failure: every transaction before the
      last one issued was accepted, and if the script was cut short, the last
      one issued was not. */
  lemma {:induction false} IssuedStopsAtFirstFailure(answer: nat -> Reply, k: nat, script: seq<Transaction>)
    ensures var n := Issued(answer, k, script);
      (forall i :: 0 <= i < n - 1 ==> Accepted(answer, k + i, script[i])) &&
      (n < |script| ==> !Accepted(answer, k + n - 1, script[n - 1]))
    decreases script
  {
    if script != [] && Accepted(answer, k, script[0]) {
      IssuedStopsAtFirstFailure(answer, k + 1, script[1..]);
      var n := Issued(answer, k, script);
      forall i | 0 <= i < n - 1 ensures Accepted(answer, k + i, script[i]) {
        if i > 0 { assert script[i] == script[1..][i - 1]; }
      }
    }
  }

  /** The whole script runs to completion, every step accepted, exactly when
      every transaction in it is accepted. */
  lemma {:induction false} IssuedAllAccepted(answer: nat -> Reply, k: nat, script: seq<Transaction>)
    ensures AllAccepted(answer, k, script) <==>
      Issued(answer, k, script) == |script| &&
      (script == [] || Accepted(answer, k + |script| - 1, script[|script| - 1]))
    decreases script
  {
    if script != [] && Accepted(answer, k, script[0]) {
      IssuedAllAccepted(answer, k + 1, script[1..]);
      if |script| > 1 {
        assert script[1..][|script| - 2] == script[|script| - 1];
      }
    }
  }

  /** AllAccepted holds exactly when the transaction at each position `i` of
      the script is accepted at bus position `k + i`. */
  lemma {:induction false} AllAcceptedEvery(answer: nat -> Reply, k: nat, s: seq<Transaction>)
    ensures AllAccepted(answer, k, s) <==> forall i :: 0 <= i < |s| ==> Accepted(answer, k + i, s[i])
    decreases s
  {
    if s != [] {
      AllAcceptedEvery(answer, k + 1, s[1..]);
      if forall i :: 0 <= i < |s| ==> Accepted(answer, k + i, s[i]) {
        forall i | 0 <= i < |s| - 1 ensures Accepted(answer, k + 1 + i, s[1..][i]) {
          assert Accepted(answer, k + (i + 1), s[i + 1]);
        }
      }
      if AllAccepted(answer, k, s) {
        forall i | 0 <= i < |s| ensures Accepted(answer, k + i, s[i]) {
          if i > 0 { assert s[i] == s[1..][i - 1]; }
        }
      }
    }
  }

  /** `a + b` is accepted throughout exactly when `a` is and then `b` is. */
  lemma {:induction false} AllAcceptedAppend(answer: nat -> Reply, k: nat, a: seq<Transaction>, b: seq<Transaction>)
    ensures AllAccepted(answer, k, a + b) <==> AllAccepted(answer, k, a) && AllAccepted(answer, k + |a|, b)
    decreases a
  {
    if a == [] {
      assert a + b == b;
    } else {
      assert (a + b)[1..] == a[1..] + b;
      AllAcceptedAppend(answer, k + 1, a[1..], b);
    }
  }

  /** The log after running `script` on a bus whose log is `log`: transactions
      are issued one at a time, and the run stops after the first one that is
      not accepted. */
  function Run(answer: nat -> Reply, log: seq<Transaction>, script: seq<Transaction>): (after: seq<Transaction>)
    ensures log <= after && |after| <= |log| + |script|
    ensures script != [] ==> |after| > |log|
    decreases script
  {
    if script == [] then log
    else if Accepted(answer, |log|, script[0]) then Run(answer, log + [script[0]], script[1..])
    else log + [script[0]]
  }

  /** A run appends to the log exactly the transactions Issued counts: the
      script up to and including its first failed transaction. */
  lemma {:induction false} RunIssued(answer: nat -> Reply, log: seq<Transaction>, script: seq<Transaction>)
    ensures Run(answer, log, script) == log + script[..Issued(answer, |log|, script)]
    decreases script
  {
    if script != [] && Accepted(answer, |log|, script[0]) {
      RunIssued(answer, log + [script[0]], script[1..]);
      var m := Issued(answer, |log| + 1, script[1..]);
      assert script[..1 + m] == [script[0]] + script[1..][..m];
    } else if script != [] {
      assert script[..1] == [script[0]];
    }
  }

  /** A script accepted throughout is appended to the log whole. */
  lemma {:induction false} RunAccepted(answer: nat -> Reply, log: seq<Transaction>, script: seq<Transaction>)
    requires AllAccepted(answer, |log|, script)
    ensures Run(answer, log, script) == log + script
    decreases script
  {
    if script != [] {
      RunAccepted(answer, log + [script[0]], script[1..]);
      assert [script[0]] + script[1..] == script;
    }
  }

  /** Running `a + b` is running `a` and then, only if all of `a` was
      accepted, `b`. */
  lemma {:induction false} RunAppend(answer: nat -> Reply, log: seq<Transaction>, a: seq<Transaction>, b: seq<Transaction>)
    ensures Run(answer, log, a + b) ==
      if AllAccepted(answer, |log|, a) then Run(answer, log + a, b) else Run(answer, log, a)
    decreases a
  {
    if a == [] {
      assert a + b == b && log + a == log;
    } else {
      assert (a + b)[0] == a[0] && (a + b)[1..] == a[1..] + b;
      if Accepted(answer, |log|, a[0]) {
        assert Run(answer, log, a + b) == Run(answer, log + [a[0]], a[1..] + b);
        assert Run(answer, log, a) == Run(answer, log + [a[0]], a[1..]);
        assert AllAccepted(answer, |log|, a) == AllAccepted(answer, |log| + 1, a[1..]);
        RunAppend(answer, log + [a[0]], a[1..], b);
        assert (log + [a[0]]) + a[1..] == log + a;
      } else {
        assert Run(answer, log, a + b) == log + [a[0]] == Run(answer, log, a);
        assert !AllAccepted(answer, |log|, a);
      }
    }
  }

  /** RunAppend in the form a caller that runs `a` and then `b` needs. */
  lemma RunThen(answer: nat -> Reply, log: seq<Transaction>, a: seq<Transaction>, b: seq<Transaction>)
    ensures AllAccepted(answer, |log|, a) ==> Run(answer, log, a) == log + a
    ensures Run(answer, log, a + b) ==
      if AllAccepted(answer, |log|, a) then Run(answer, Run(answer, log, a), b) else Run(answer, log, a)
    ensures AllAccepted(answer, |log|, a + b) <==>
      AllAccepted(answer, |log|, a) && AllAccepted(answer, |log| + |a|, b)
  {
    RunAppend(answer, log, a, b);
    AllAcceptedAppend(answer, |log|, a, b);
    if AllAccepted(answer, |log|, a) {
      RunAccepted(answer, log, a);
    }
  }
}
