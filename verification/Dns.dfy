/** The parts of a DNS message the cache reads or writes. Packing, name compression and truncation to a
    datagram belong to the DNS library and are not modelled. */
module Dns {
  const TYPE_OPT: nat := 41
  const RCODE_SUCCESS: nat := 0
  const RCODE_SERVER_FAILURE: nat := 2
  const RCODE_NAME_ERROR: nat := 3

  datatype RData =
    | Soa(minttl: nat)
    | Opt(udpSize: nat, dnssecOk: bool)
    | Other(text: string)

  datatype RR = RR(name: string, rrtype: nat, ttl: nat, data: RData)

  datatype Question = Question(name: string, qtype: nat)

  datatype Msg = Msg(id: nat, rcode: nat, truncated: bool, question: seq<Question>,
                     answer: seq<RR>, ns: seq<RR>, extra: seq<RR>)

  /** Records with their TTL replaced; the TTL field of an OPT record is not a TTL. */
  function WithTtl(rrs: seq<RR>, ttl: nat): (out: seq<RR>)
    ensures |out| == |rrs|
    ensures forall i :: 0 <= i < |rrs| ==> out[i] == rrs[i].(ttl := ttl)
  {
    seq(|rrs|, i requires 0 <= i < |rrs| => rrs[i].(ttl := ttl))
  }

  function WithTtlButOpt(rrs: seq<RR>, ttl: nat): (out: seq<RR>)
    ensures |out| == |rrs|
    ensures forall i :: 0 <= i < |rrs| ==> out[i] == if rrs[i].rrtype == TYPE_OPT then rrs[i] else rrs[i].(ttl := ttl)
  {
    seq(|rrs|, i requires 0 <= i < |rrs| =>
      if rrs[i].rrtype == TYPE_OPT then rrs[i] else rrs[i].(ttl := ttl))
  }

  function SetTtl(m: Msg, ttl: nat): Msg
  {
    m.(answer := WithTtl(m.answer, ttl), ns := WithTtl(m.ns, ttl), extra := WithTtlButOpt(m.extra, ttl))
  }

  /** cache.CopyAndSetTTL: the copy is rewritten record by record. */
  method CopyAndSetTtl(msg: Msg, ttl: nat) returns (m: Msg)
    ensures m == SetTtl(msg, ttl)
  {
    var answer, ns, extra := msg.answer, msg.ns, msg.extra;
    for i := 0 to |answer|
      invariant |answer| == |msg.answer|
      invariant forall j :: 0 <= j < i ==> answer[j] == msg.answer[j].(ttl := ttl)
      invariant forall j :: i <= j < |answer| ==> answer[j] == msg.answer[j]
    {
      answer := answer[i := answer[i].(ttl := ttl)];
    }
    for i := 0 to |ns|
      invariant |ns| == |msg.ns|
      invariant forall j :: 0 <= j < i ==> ns[j] == msg.ns[j].(ttl := ttl)
      invariant forall j :: i <= j < |ns| ==> ns[j] == msg.ns[j]
    {
      ns := ns[i := ns[i].(ttl := ttl)];
    }
    for i := 0 to |extra|
      invariant |extra| == |msg.extra|
      invariant extra[..i] == WithTtlButOpt(msg.extra, ttl)[..i]
      invariant forall j :: i <= j < |extra| ==> extra[j] == msg.extra[j]
    {
      if extra[i].rrtype == TYPE_OPT {
        continue;
      }
      extra := extra[i := extra[i].(ttl := ttl)];
    }
    assert answer == WithTtl(msg.answer, ttl) && ns == WithTtl(msg.ns, ttl);
    assert extra == extra[..|extra|];
    m := msg.(answer := answer, ns := ns, extra := extra);
  }

  /** The records that are not OPT, in order. */
  function WithoutOpt(rrs: seq<RR>): seq<RR>
  {
    if rrs == [] then []
    else if rrs[|rrs| - 1].rrtype != TYPE_OPT then WithoutOpt(rrs[..|rrs| - 1]) + [rrs[|rrs| - 1]]
    else WithoutOpt(rrs[..|rrs| - 1])
  }

  method StripOpt(rrs: seq<RR>) returns (out: seq<RR>)
    ensures out == WithoutOpt(rrs)
  {
    out := [];
    for i := 0 to |rrs|
      invariant out == WithoutOpt(rrs[..i])
    {
      assert rrs[..i + 1][..i] == rrs[..i];
      if rrs[i].rrtype != TYPE_OPT {
        out := out + [rrs[i]];
      }
    }
    assert rrs[..|rrs|] == rrs;
  }

  /** Stripping removes every OPT record and nothing else. */
  lemma {:induction false} WithoutOptKeepsTheRest(rrs: seq<RR>, rr: RR)
    ensures multiset(WithoutOpt(rrs))[rr] == if rr.rrtype == TYPE_OPT then 0 else multiset(rrs)[rr]
  {
    if rrs != [] {
      var n := |rrs| - 1;
      WithoutOptKeepsTheRest(rrs[..n], rr);
      assert rrs == rrs[..n] + [rrs[n]];
    }
  }

  /** Stripping looks at each record by itself and keeps the order. */
  lemma {:induction false} WithoutOptInOrder(first: seq<RR>, second: seq<RR>)
    ensures WithoutOpt(first + second) == WithoutOpt(first) + WithoutOpt(second)
  {
    if second == [] {
      assert first + second == first;
    } else {
      var n := |second| - 1;
      WithoutOptInOrder(first, second[..n]);
      assert (first + second)[..|first| + n] == first + second[..n];
    }
  }

  lemma WithoutOptOfOne(rr: RR)
    ensures WithoutOpt([rr]) == if rr.rrtype == 41 then [] else [rr]
  {
    assert [rr][..0] == [];
  }

  /** Only TTLs change. */
  lemma SetTtlKeepsTheRest(m: Msg, ttl: nat)
    ensures var r := SetTtl(m, ttl);
            && (r.id, r.rcode, r.truncated, r.question) == (m.id, m.rcode, m.truncated, m.question)
            && |r.answer| == |m.answer| && |r.ns| == |m.ns| && |r.extra| == |m.extra|
            && (forall i :: 0 <= i < |m.answer| ==> r.answer[i] == m.answer[i].(ttl := ttl))
            && (forall i :: 0 <= i < |m.ns| ==> r.ns[i] == m.ns[i].(ttl := ttl))
            && forall i :: 0 <= i < |m.extra| ==>
                 r.extra[i] == if m.extra[i].rrtype == 41 then m.extra[i] else m.extra[i].(ttl := ttl)
  {
  }
}
