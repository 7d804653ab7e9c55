// What a drain does to each record, in the order of the file: which are offered
// to the server, what becomes of them, and which one stops the drain.

module QueueFates {
  import opened QueueRecords
  import opened Wrappers

  type Server = (nat, Bytes) -> Answer

  /** A record that is worth a request: not empty, and no longer than a mebibyte. */
  predicate Sendable(payload: Bytes) {
    0 < |payload| <= 1_048_576
  }

  function Requests(records: seq<Bytes>): seq<Bytes> {
    if records == [] then []
    else Requests(records[..|records| - 1]) +
         if Sendable(records[|records| - 1]) then [records[|records| - 1]] else []
  }

  /** What becomes of a record when `n` requests were made before it. */
  predicate Becomes(send: Server, n: nat, payload: Bytes, fate: Fate) {
    match fate
    case TooLarge => |payload| > 1_048_576
    case Blank => |payload| == 0
    case Delivered => Sendable(payload) && send(n, payload) == Accepted
    case Rejected => Sendable(payload) && send(n, payload) == Permanent
    case Kept => Sendable(payload) && send(n, payload) == Transient
  }

  lemma {:induction false} FateBecomes(send: Server, n: nat, payload: Bytes, fate: Fate)
    ensures FateOf(send, n, payload) == fate <==> Becomes(send, n, payload, fate)
    ensures Attempted(FateOf(send, n, payload)) <==> Sendable(payload)
  {
    assert payload == [] <==> |payload| == 0;
  }

  lemma {:induction false} RequestsFirst(payload: Bytes, records: seq<Bytes>)
    ensures Requests([payload] + records) == (if Sendable(payload) then [payload] else []) + Requests(records)
    decreases |records|
  {
    var all := [payload] + records;
    if records == [] {
      assert all[..0] == [];
    } else {
      var front := records[..|records| - 1];
      assert all[..|all| - 1] == [payload] + front && all[|all| - 1] == records[|records| - 1];
      RequestsFirst(payload, front);
    }
  }

  /**
   Record k is dealt with exactly as the server's answer to it says, after as
   many requests as there are sendable records before it; the first record
   that meets a transient failure stops the drain.
   */
  lemma {:induction false} FatesAreAnswers(send: Server, n: nat, records: seq<Bytes>, k: nat)
    requires k < |records|
    ensures var fates, before := Fates(send, n, records), |Requests(records[..k])|;
            && (k < |fates| ==> Becomes(send, n + before, records[k], fates[k]))
            && (k == |fates| ==> Becomes(send, n + before, records[k], Kept))
    decreases |records|
  {
    var payload, rest := records[0], records[1..];
    var fate := FateOf(send, n, payload);
    FateBecomes(send, n, payload, fate);
    if k == 0 {
      assert records[..0] == [];
    } else {
      var m := if Attempted(fate) then n + 1 else n;
      assert records[..k] == [payload] + rest[..k - 1] && records[k] == rest[k - 1];
      RequestsFirst(payload, rest[..k - 1]);
      if !fate.Kept? {
        FatesAreAnswers(send, m, rest, k - 1);
      }
    }
  }

  /** The server is offered the sendable records among those dealt with, and the one that stopped the drain. */
  lemma {:induction false} OfferedAreRequests(send: Server, n: nat, records: seq<Bytes>)
    ensures var handled := |Fates(send, n, records)|;
            Offered(send, n, records) == Requests(records[..if handled < |records| then handled + 1 else handled])
    decreases |records|
  {
    if records == [] {
      assert records[..0] == [];
    } else {
      var payload, rest := records[0], records[1..];
      var fate := FateOf(send, n, payload);
      FateBecomes(send, n, payload, fate);
      if fate.Kept? {
        RequestsFirst(payload, []);
        assert records[..1] == [payload] + [] && [payload] + [] == [payload];
      } else {
        var m := if Attempted(fate) then n + 1 else n;
        OfferedAreRequests(send, m, rest);
        OneMoreOffered(send, n, records, fate, m);
      }
    }
  }

  lemma {:induction false} OneMoreOffered(send: Server, n: nat, records: seq<Bytes>, fate: Fate, m: nat)
    requires records != [] && fate == FateOf(send, n, records[0]) && !fate.Kept?
    requires m == if Attempted(fate) then n + 1 else n
    requires var handled := |Fates(send, m, records[1..])|;
             Offered(send, m, records[1..]) ==
             Requests(records[1..][..if handled < |records| - 1 then handled + 1 else handled])
    ensures var handled := |Fates(send, n, records)|;
            Offered(send, n, records) == Requests(records[..if handled < |records| then handled + 1 else handled])
  {
    var payload, rest := records[0], records[1..];
    var handled := |Fates(send, m, rest)|;
    var j := if handled < |rest| then handled + 1 else handled;
    FateBecomes(send, n, payload, fate);
    RequestsFirst(payload, rest[..j]);
    assert records[..j + 1] == [payload] + rest[..j];
  }

  /** What the counters of a drain count. */
  lemma {:induction false} CountIs(fates: seq<Fate>, fate: Fate)
    ensures Count(fates, fate) == multiset(fates)[fate]
  {
    if fates != [] {
      CountIs(fates[1..], fate);
      assert fates == [fates[0]] + fates[1..];
    }
  }
}
