/**
 * An injected duplex byte stream. Its behaviour is a script: how many bytes each
 * read hands over, which calls are interrupted, and which calls fail. A statement
 * about every script is a statement about every stream.
 */
module Streams {
  import opened Bytes

  datatype ReadChoice = Deliver(limit: nat) | ReadInterrupted | ReadFails
  datatype WriteChoice = Accept(limit: nat) | AcceptNothing | WriteInterrupted | WriteFails
  datatype IoOutcome = Moved(count: nat) | Interrupted | Failed

  function Min(a: nat, b: nat): nat {
    if a <= b then a else b
  }

  /** The script after one call: a used-up script keeps behaving like a plain stream. */
  function Rest<T>(plan: seq<T>): seq<T> {
    if plan == [] then [] else plan[1..]
  }

  class ByteStream {
    var inbound: seq<Byte>        // sent by the peer and not read yet; then end of file
    var outbound: seq<Byte>       // everything this side has written
    var readPlan: seq<ReadChoice>
    var writePlan: seq<WriteChoice>
    var flushPlan: seq<bool>

    constructor (inbound: seq<Byte>, readPlan: seq<ReadChoice>, writePlan: seq<WriteChoice>, flushPlan: seq<bool>)
      ensures this.inbound == inbound && outbound == []
      ensures this.readPlan == readPlan && this.writePlan == writePlan && this.flushPlan == flushPlan
    {
      this.inbound, this.outbound := inbound, [];
      this.readPlan, this.writePlan, this.flushPlan := readPlan, writePlan, flushPlan;
    }

    /** No write is refused for good and no flush fails. */
    ghost predicate Willing()
      reads this`writePlan, this`flushPlan
    {
      WriteFails !in writePlan && AcceptNothing !in writePlan && false !in flushPlan
    }

    /** Read into `buffer[from..]`. Nothing is moved only at end of file. */
    method Read(buffer: array<Byte>, from: nat) returns (r: IoOutcome)
      requires from < buffer.Length
      modifies this`inbound, this`readPlan, buffer
      ensures readPlan == Rest(old(readPlan))
      ensures r.Moved? ==>
                && r.count <= |old(inbound)| && from + r.count <= buffer.Length
                && (r.count == 0 <==> old(inbound) == [])
                && inbound == old(inbound)[r.count..]
                && buffer[..] == old(buffer[..])[..from] + old(inbound)[..r.count] + old(buffer[..])[from + r.count..]
      ensures !r.Moved? ==> inbound == old(inbound) && buffer[..] == old(buffer[..]) && old(readPlan) != []
      ensures r.Failed? ==> ReadFails in old(readPlan)
      ensures r.Interrupted? ==> ReadInterrupted in old(readPlan)
    {
      var limit := buffer.Length;
      if readPlan != [] {
        var choice := readPlan[0];
        readPlan := readPlan[1..];
        match choice {
          case ReadInterrupted => return Interrupted;
          case ReadFails => return Failed;
          case Deliver(most) => limit := if most == 0 then 1 else most;
        }
      }
      var n := Min(limit, Min(buffer.Length - from, |inbound|));
      forall i | 0 <= i < n {
        buffer[from + i] := inbound[i];
      }
      inbound := inbound[n..];
      r := Moved(n);
    }

    /** Write a non-empty prefix of `bytes`, or nothing, or fail. */
    method Write(bytes: seq<Byte>) returns (r: IoOutcome)
      requires bytes != []
      modifies this`outbound, this`writePlan
      ensures writePlan == Rest(old(writePlan))
      ensures r.Moved? ==> r.count <= |bytes| && outbound == old(outbound) + bytes[..r.count]
      ensures !r.Moved? ==> outbound == old(outbound)
      ensures r.Interrupted? ==> old(writePlan) != []
      ensures old(Willing()) ==> Willing() && !r.Failed? && (r.Moved? ==> r.count > 0)
    {
      var limit := |bytes|;
      if writePlan != [] {
        var choice := writePlan[0];
        writePlan := writePlan[1..];
        match choice {
          case WriteInterrupted => return Interrupted;
          case WriteFails => return Failed;
          case AcceptNothing => return Moved(0);
          case Accept(most) => limit := if most == 0 then 1 else most;
        }
      }
      var n := Min(limit, |bytes|);
      outbound := outbound + bytes[..n];
      r := Moved(n);
    }

    method Flush() returns (ok: bool)
      modifies this`flushPlan
      ensures flushPlan == Rest(old(flushPlan))
      ensures ok == (old(flushPlan) == [] || old(flushPlan)[0])
      ensures old(Willing()) ==> Willing() && ok
    {
      ok := flushPlan == [] || flushPlan[0];
      flushPlan := Rest(flushPlan);
    }
  }
}
