/** Certificate bundles: merging without duplicates, folding merges, and containment. */
module Certificates {
  import opened Common

  type Bytes = seq<char>

  /** A certificate is its DER bytes; two certificates are compared by them. */
  type Cert = Bytes

  /** Textual encoding of certificates (RFC 7468, section 5) and its parser. */
  datatype Pem = Pem(encode: seq<Cert> -> Bytes, parse: Bytes -> Result<seq<Cert>>)

  /** Encoding and parsing undo each other; a parse that finds no certificate is an error. */
  ghost predicate Lawful(pem: Pem) {
    && pem.encode([]) == []
    && (forall cs :: cs != [] ==> pem.encode(cs) != [] && pem.parse(pem.encode(cs)) == Ok(cs))
    && (forall b :: pem.parse(b).Ok? ==> pem.parse(b).value != [])
  }

  // ---- first-occurrence dedup ----

  /** The members of `s` in the order of their first occurrence. */
  function Dedup(s: seq<Cert>): (r: seq<Cert>)
    ensures forall c :: c in r <==> c in s
  {
    if s == [] then []
    else
      var init, last := s[..|s| - 1], s[|s| - 1];
      assert s == init + [last];
      if last in init then Dedup(init) else Dedup(init) + [last]
  }

  lemma {:induction false} DedupDistinct(s: seq<Cert>)
    ensures forall i, j | 0 <= i < j < |Dedup(s)| :: Dedup(s)[i] != Dedup(s)[j]
  {
    if s != [] {
      DedupDistinct(s[..|s| - 1]);
    }
  }

  /** A distinct list is its own dedup. */
  lemma {:induction false} DedupOfDistinct(s: seq<Cert>)
    requires forall i, j | 0 <= i < j < |s| :: s[i] != s[j]
    ensures Dedup(s) == s
  {
    if s != [] {
      DedupOfDistinct(s[..|s| - 1]);
      assert s == s[..|s| - 1] + [s[|s| - 1]];
    }
  }

  lemma DedupSnoc(s: seq<Cert>, c: Cert)
    ensures Dedup(s + [c]) == if c in s then Dedup(s) else Dedup(s) + [c]
  {
    assert (s + [c])[..|s|] == s;
  }

  lemma SnocAssociates(a: seq<Cert>, b: seq<Cert>, c: Cert)
    ensures a + (b + [c]) == a + b + [c]
  {
  }

  lemma Snoc(b: seq<Cert>)
    requires b != []
    ensures b == b[..|b| - 1] + [b[|b| - 1]]
  {
  }

  /** Two lists with the same members and the same dedup have the same dedup after one more certificate. */
  lemma SameAfterOne(x: seq<Cert>, y: seq<Cert>, c: Cert)
    requires Dedup(x) == Dedup(y) && (c in x <==> c in y)
    ensures Dedup(x + [c]) == Dedup(y + [c])
  {
    DedupSnoc(x, c);
    DedupSnoc(y, c);
  }

  /** Removing duplicates from the first part beforehand changes nothing. */
  lemma {:induction false} DedupLeft(a: seq<Cert>, b: seq<Cert>)
    ensures Dedup(Dedup(a) + b) == Dedup(a + b)
  {
    if b == [] {
      DedupDistinct(a);
      DedupOfDistinct(Dedup(a));
      assert Dedup(a) + b == Dedup(a) && a + b == a;
    } else {
      var init, last := b[..|b| - 1], b[|b| - 1];
      DedupLeft(a, init);
      Snoc(b);
      SnocAssociates(a, init, last);
      SnocAssociates(Dedup(a), init, last);
      SameAfterOne(Dedup(a) + init, a + init, last);
    }
  }

  /** Nor from the second part. */
  lemma {:induction false} DedupRight(a: seq<Cert>, b: seq<Cert>)
    ensures Dedup(a + Dedup(b)) == Dedup(a + b)
  {
    if b != [] {
      var init, last := b[..|b| - 1], b[|b| - 1];
      DedupRight(a, init);
      Snoc(b);
      DedupRightStep(a, init, last);
    }
  }

  lemma DedupRightStep(a: seq<Cert>, init: seq<Cert>, last: Cert)
    requires Dedup(a + Dedup(init)) == Dedup(a + init)
    ensures Dedup(a + Dedup(init + [last])) == Dedup(a + (init + [last]))
  {
    SnocAssociates(a, init, last);
    DedupSnoc(init, last);
    if last in init {
      DedupSnoc(a + init, last);
    } else {
      SnocAssociates(a, Dedup(init), last);
      SameAfterOne(a + Dedup(init), a + init, last);
    }
  }

  // ---- merging bundles ----

  /** An empty bundle holds no certificates and is never parsed. */
  function Certs(pem: Pem, b: Bytes): (r: Result<seq<Cert>>)
  {
    if b == [] then Ok([]) else pem.parse(b)
  }

  /** The certificates of all bundles one after the other; an error if any does not parse. */
  function AllCerts(pem: Pem, bundles: seq<Bytes>): (r: Result<seq<Cert>>)
  {
    if bundles == [] then Ok([])
    else
      match AllCerts(pem, bundles[..|bundles| - 1])
      case Err => Err
      case Ok(before) =>
        match Certs(pem, bundles[|bundles| - 1])
        case Err => Err
        case Ok(cs) => Ok(before + cs)
  }

  function Merge(pem: Pem, bundles: seq<Bytes>): (r: Result<Bytes>)
  {
    match AllCerts(pem, bundles)
    case Err => Err
    case Ok(cs) => Ok(pem.encode(Dedup(cs)))
  }

  method MergeCertificateData(pem: Pem, bundles: seq<Bytes>) returns (r: Result<Bytes>)
    ensures r == Merge(pem, bundles)
  {
    var all: seq<Cert> := [];
    for i := 0 to |bundles|
      invariant AllCerts(pem, bundles[..i]) == Ok(all)
    {
      assert bundles[..i + 1][..i] == bundles[..i];
      if |bundles[i]| == 0 {
        assert all + [] == all;
        continue;
      }
      var certs := pem.parse(bundles[i]);
      if certs.Err? {
        ErrStays(pem, bundles, i + 1);
        return Err;
      }
      all := all + certs.value;
    }
    assert bundles[..|bundles|] == bundles;
    var merged := RemoveDuplicates(all);
    return Ok(pem.encode(merged));
  }

  method RemoveDuplicates(all: seq<Cert>) returns (merged: seq<Cert>)
    ensures merged == Dedup(all)
  {
    merged := [];
    for i := 0 to |all|
      invariant merged == Dedup(all[..i])
    {
      var found := false;
      for j := 0 to |merged|
        invariant found <==> all[i] in merged[..j]
      {
        assert merged[..j + 1] == merged[..j] + [merged[j]];
        if all[i] == merged[j] {
          found := true;
          break;
        }
      }
      assert merged[..|merged|] == merged;
      DedupSnoc(all[..i], all[i]);
      assert all[..i + 1] == all[..i] + [all[i]];
      if !found {
        merged := merged + [all[i]];
      }
    }
    assert all[..|all|] == all;
  }

  lemma {:induction false} ErrStays(pem: Pem, bundles: seq<Bytes>, i: nat)
    requires i <= |bundles| && AllCerts(pem, bundles[..i]).Err?
    ensures AllCerts(pem, bundles).Err?
  {
    if i < |bundles| {
      assert bundles[..|bundles| - 1][..i] == bundles[..i];
      ErrStays(pem, bundles[..|bundles| - 1], i);
    } else {
      assert bundles[..i] == bundles;
    }
  }

  lemma {:induction false} AllCertsConcat(pem: Pem, xs: seq<Bytes>, ys: seq<Bytes>)
    ensures AllCerts(pem, xs + ys) ==
            (if AllCerts(pem, xs).Err? || AllCerts(pem, ys).Err? then Err
             else Ok(AllCerts(pem, xs).value + AllCerts(pem, ys).value))
  {
    if ys == [] {
      assert xs + ys == xs;
      assert AllCerts(pem, xs).Ok? ==> AllCerts(pem, xs).value + [] == AllCerts(pem, xs).value;
    } else {
      var init, last := ys[..|ys| - 1], ys[|ys| - 1];
      AllCertsConcat(pem, xs, init);
      assert (xs + ys)[..|xs + ys| - 1] == xs + init;
      assert (xs + ys)[|xs + ys| - 1] == last;
      if AllCerts(pem, xs).Ok? && AllCerts(pem, init).Ok? && Certs(pem, last).Ok? {
        var a, b, c := AllCerts(pem, xs).value, AllCerts(pem, init).value, Certs(pem, last).value;
        assert (a + b) + c == a + (b + c);
      }
    }
  }

  lemma AllCertsOne(pem: Pem, b: Bytes)
    ensures AllCerts(pem, [b]) == Certs(pem, b)
  {
    assert [b][..0] == [];
    if Certs(pem, b).Ok? {
      assert [] + Certs(pem, b).value == Certs(pem, b).value;
    }
  }

  /** Reading a merge back gives the deduplicated certificates. */
  lemma CertsOfMerge(pem: Pem, bundles: seq<Bytes>)
    requires Lawful(pem) && AllCerts(pem, bundles).Ok?
    ensures Certs(pem, Merge(pem, bundles).value) == Ok(Dedup(AllCerts(pem, bundles).value))
  {
    var cs := Dedup(AllCerts(pem, bundles).value);
    if cs != [] {
      assert pem.parse(pem.encode(cs)) == Ok(cs);
    }
  }

  /**
   Merging is associative: a merge of some bundles can stand in for them on
   either side of any other bundles.
   */
  lemma MergeNests(pem: Pem, xs: seq<Bytes>, ys: seq<Bytes>)
    requires Lawful(pem)
    ensures Merge(pem, xs).Ok? ==> Merge(pem, [Merge(pem, xs).value] + ys) == Merge(pem, xs + ys)
    ensures Merge(pem, ys).Ok? ==> Merge(pem, xs + [Merge(pem, ys).value]) == Merge(pem, xs + ys)
    ensures Merge(pem, xs).Err? || Merge(pem, ys).Err? <==> Merge(pem, xs + ys).Err?
  {
    AllCertsConcat(pem, xs, ys);
    if AllCerts(pem, xs).Ok? {
      var m := Merge(pem, xs).value;
      CertsOfMerge(pem, xs);
      AllCertsOne(pem, m);
      AllCertsConcat(pem, [m], ys);
      if AllCerts(pem, ys).Ok? {
        DedupLeft(AllCerts(pem, xs).value, AllCerts(pem, ys).value);
      }
    }
    if AllCerts(pem, ys).Ok? {
      var m := Merge(pem, ys).value;
      CertsOfMerge(pem, ys);
      AllCertsOne(pem, m);
      AllCertsConcat(pem, xs, [m]);
      if AllCerts(pem, xs).Ok? {
        DedupRight(AllCerts(pem, xs).value, AllCerts(pem, ys).value);
      }
    }
  }

  /** Merging a merge again, or twice the same bundles, changes nothing. */
  lemma MergeIdempotent(pem: Pem, bundles: seq<Bytes>)
    requires Lawful(pem) && Merge(pem, bundles).Ok?
    ensures Merge(pem, [Merge(pem, bundles).value]) == Merge(pem, bundles)
    ensures Merge(pem, bundles + bundles) == Merge(pem, bundles)
  {
    MergeNests(pem, bundles, []);
    assert bundles + [] == bundles && [Merge(pem, bundles).value] + [] == [Merge(pem, bundles).value];
    AllCertsConcat(pem, bundles, bundles);
    DedupTwice(AllCerts(pem, bundles).value);
  }

  lemma DedupTwice(s: seq<Cert>)
    ensures Dedup(s + s) == Dedup(s)
  {
    DedupAbsorbs(s, s);
  }

  lemma {:induction false} DedupAbsorbs(s: seq<Cert>, t: seq<Cert>)
    requires forall c | c in t :: c in s
    ensures Dedup(s + t) == Dedup(s)
  {
    if t == [] {
      assert s + t == s;
    } else {
      var init, last := t[..|t| - 1], t[|t| - 1];
      Snoc(t);
      assert last in t && forall c | c in init :: c in t;
      DedupAbsorbs(s, init);
      SnocAssociates(s, init, last);
      DedupSnoc(s + init, last);
    }
  }

  // ---- the custom CA bundles of a klusterlet config ----

  /** A merge that fails on the first bundles fails on all of them. */
  lemma MergeStaysErr(pem: Pem, fetched: seq<Result<Bytes>>, datas: seq<Bytes>)
    requires Merge(pem, datas).Err? && |datas| <= |fetched| && forall j | 0 <= j < |datas| :: fetched[j] == Ok(datas[j])
    ensures (forall i | 0 <= i < |fetched| :: fetched[i].Ok?) ==>
              Merge(pem, seq(|fetched|, i requires 0 <= i < |fetched| && fetched[i].Ok? => fetched[i].value)).Err?
  {
    if forall j | 0 <= j < |fetched| :: fetched[j].Ok? {
      var all := seq(|fetched|, j requires 0 <= j < |fetched| && fetched[j].Ok? => fetched[j].value);
      assert all[..|datas|] == datas;
      ErrStays(pem, all, |datas|);
    }
  }

  /** `fetched[i]` is what reading the i-th configmap returned. */
  method GetCustomCAData(pem: Pem, fetched: seq<Result<Bytes>>) returns (r: Result<Bytes>)
    requires Lawful(pem)
    ensures (exists i | 0 <= i < |fetched| :: fetched[i].Err?) ==> r.Err?
    ensures (forall i | 0 <= i < |fetched| :: fetched[i].Ok?) ==>
              r == Merge(pem, seq(|fetched|, i requires 0 <= i < |fetched| && fetched[i].Ok? => fetched[i].value))
  {
    var all: Bytes := [];
    ghost var datas: seq<Bytes> := [];
    for i := 0 to |fetched|
      invariant |datas| == i && forall j | 0 <= j < i :: fetched[j] == Ok(datas[j])
      invariant Merge(pem, datas) == Ok(all)
    {
      if fetched[i].Err? {
        return Err;
      }
      var data := fetched[i].value;
      var merged := MergeCertificateData(pem, [all, data]);
      MergeNests(pem, datas, [data]);
      assert [all] + [data] == [all, data];
      if merged.Err? {
        MergeStaysErr(pem, fetched, datas + [data]);
        return Err;
      }
      all := merged.value;
      datas := datas + [data];
    }
    assert datas == seq(|fetched|, i requires 0 <= i < |fetched| && fetched[i].Ok? => fetched[i].value);
    return Ok(all);
  }

  // ---- containment ----

  /** Whether every certificate of `subset` is in `superset`. */
  function HoldsAll(pem: Pem, superset: Bytes, subset: Bytes): (r: Result<bool>)
  {
    if subset == [] then Ok(true)
    else if superset == [] then Ok(false)
    else if pem.parse(superset).Err? || pem.parse(subset).Err? then Err
    else Ok(forall c | c in pem.parse(subset).value :: c in pem.parse(superset).value)
  }

  method HasCertificates(pem: Pem, superset: Bytes, subset: Bytes) returns (r: Result<bool>)
    ensures r == HoldsAll(pem, superset, subset)
  {
    if |subset| == 0 {
      return Ok(true);
    }
    if |superset| == 0 {
      return Ok(false);
    }
    var super := pem.parse(superset);
    if super.Err? {
      return Err;
    }
    var sub := pem.parse(subset);
    if sub.Err? {
      return Err;
    }
    for i := 0 to |sub.value|
      invariant forall c | c in sub.value[..i] :: c in super.value
    {
      var found := false;
      for j := 0 to |super.value|
        invariant found <==> sub.value[i] in super.value[..j]
      {
        assert super.value[..j + 1] == super.value[..j] + [super.value[j]];
        if sub.value[i] == super.value[j] {
          found := true;
          break;
        }
      }
      assert super.value[..|super.value|] == super.value;
      if !found {
        assert sub.value[i] in sub.value;
        return Ok(false);
      }
      assert sub.value[..i + 1] == sub.value[..i] + [sub.value[i]];
    }
    assert sub.value[..|sub.value|] == sub.value;
    return Ok(true);
  }

  lemma {:induction false} MemberCerts(pem: Pem, bundles: seq<Bytes>, k: nat)
    requires AllCerts(pem, bundles).Ok? && k < |bundles|
    ensures Certs(pem, bundles[k]).Ok?
    ensures forall c | c in Certs(pem, bundles[k]).value :: c in AllCerts(pem, bundles).value
  {
    if k < |bundles| - 1 {
      MemberCerts(pem, bundles[..|bundles| - 1], k);
    }
  }

  /** A merge holds each of the bundles it was made from. */
  lemma MergeHoldsInputs(pem: Pem, bundles: seq<Bytes>, k: nat)
    requires Lawful(pem) && Merge(pem, bundles).Ok? && k < |bundles|
    ensures HoldsAll(pem, Merge(pem, bundles).value, bundles[k]) == Ok(true)
  {
    MemberCerts(pem, bundles, k);
    CertsOfMerge(pem, bundles);
    if bundles[k] != [] {
      var c := Certs(pem, bundles[k]).value[0];
      assert c in Certs(pem, bundles[k]).value;
      assert c in Dedup(AllCerts(pem, bundles).value);
    }
  }

  /** A certificate that is new to a list adds to its dedup. */
  lemma NewOneAdds(s: seq<Cert>, t: seq<Cert>, c: Cert)
    requires c in t && c !in s
    ensures Dedup(s + t) != Dedup(s)
  {
    assert c in Dedup(s + t) && c !in Dedup(s);
  }

  lemma EncodingTellsApart(pem: Pem, a: seq<Cert>, b: seq<Cert>)
    requires Lawful(pem)
    ensures pem.encode(a) == pem.encode(b) <==> a == b
  {
    if a != [] && b != [] {
      assert pem.parse(pem.encode(a)) == Ok(a) && pem.parse(pem.encode(b)) == Ok(b);
    }
  }

  /** Containment is what merging would show: a merge holds a further bundle exactly when adding it changes nothing. */
  lemma HeldExactlyWhenNothingIsAdded(pem: Pem, bundles: seq<Bytes>, b: Bytes)
    requires Lawful(pem) && Merge(pem, bundles).Ok? && Certs(pem, b).Ok?
    ensures HoldsAll(pem, Merge(pem, bundles).value, b) == Ok(true) <==> Merge(pem, bundles + [b]) == Merge(pem, bundles)
    ensures HoldsAll(pem, Merge(pem, bundles).value, b).Ok?
  {
    var have, more := AllCerts(pem, bundles).value, Certs(pem, b).value;
    AllCertsOne(pem, b);
    AllCertsConcat(pem, bundles, [b]);
    CertsOfMerge(pem, bundles);
    EncodingTellsApart(pem, Dedup(have + more), Dedup(have));
    HeldExactly(pem, bundles, b);
    if forall c | c in more :: c in have {
      DedupAbsorbs(have, more);
    } else {
      var c :| c in more && c !in have;
      NewOneAdds(have, more, c);
    }
  }

  lemma HeldExactly(pem: Pem, bundles: seq<Bytes>, b: Bytes)
    requires Lawful(pem) && Merge(pem, bundles).Ok? && Certs(pem, b).Ok?
    ensures HoldsAll(pem, Merge(pem, bundles).value, b)
            == Ok(forall c | c in Certs(pem, b).value :: c in AllCerts(pem, bundles).value)
  {
    var have, more := AllCerts(pem, bundles).value, Certs(pem, b).value;
    CertsOfMerge(pem, bundles);
    assert forall c :: c in Dedup(have) <==> c in have;
    if b != [] && have == [] {
      assert more[0] in more;
    }
    if b != [] && have != [] {
      assert have[0] in Dedup(have);
      EncodingTellsApart(pem, Dedup(have), []);
    }
  }
}
