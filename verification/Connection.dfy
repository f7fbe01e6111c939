/** A management connection as a byte log with partial and failing writes. */
module Connection {

  /** `after` is `before` plus all of `payload`, or plus a part of it on failure. */
  ghost predicate Appended(before: string, after: string, payload: string, ok: bool) {
    exists k :: 0 <= k <= |payload| && after == before + payload[..k] && (ok ==> k == |payload|)
  }

  /** One failed write, or none. */
  function CountIf(failed: bool): nat {
    if failed then 1 else 0
  }

  class Conn {
    var wire: string          // every byte handed to the peer so far
    ghost var failures: nat   // how many writes have failed

    constructor ()
      ensures wire == "" && failures == 0
    {
      wire, failures := "", 0;
    }

    /** net.Conn.Write: any number of bytes may be written, also when it fails.
        A write that reports success makes progress. */
    method Write(p: string) returns (n: nat, ok: bool)
      modifies this
      ensures n <= |p| && wire == old(wire) + p[..n]
      ensures ok && p != "" ==> n > 0
      ensures failures == old(failures) + CountIf(!ok)
    {
      ok := *;
      assert |p| <= |p| && (ok && p != "" ==> |p| > 0);
      n :| n <= |p| && (ok && p != "" ==> n > 0);
      wire, failures := wire + p[..n], failures + CountIf(!ok);
    }
  }

  /** Writes until everything is written or one write fails. */
  method WriteAll(conn: Conn, payload: string) returns (ok: bool)
    modifies conn
    ensures Appended(old(conn.wire), conn.wire, payload, ok)
    ensures conn.failures == old(conn.failures) + CountIf(!ok)
  {
    ghost var before := conn.wire;
    var written := 0;
    while written < |payload|
      invariant 0 <= written <= |payload|
      invariant conn.wire == before + payload[..written] && conn.failures == old(conn.failures)
      decreases |payload| - written
    {
      var n, good := conn.Write(payload[written..]);
      Advance(before, payload, written, n);
      if !good {
        assert conn.wire == before + payload[..written + n];
        return false;
      }
      written := written + n;
    }
    assert payload[..written] == payload;
    return true;
  }

  lemma Advance(before: string, payload: string, written: nat, n: nat)
    requires written + n <= |payload|
    ensures before + payload[..written] + payload[written..][..n] == before + payload[..written + n]
  {
  }
}
