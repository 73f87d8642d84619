/** The "top clients by revenue" query. Clients are inner-joined to their
    receivables, only receivables with status "Recebido" are kept, the amounts
    are summed per client id, and the five clients with the largest sums are
    returned with their name, e-mail and phone, largest sum first.

    SQL does not fix the order of clients with equal totals, so the result is
    specified relationally: at most five rows, non-increasing totals, and no
    qualifying client left out whose total beats a returned one. The model
    computes one admissible answer (equal totals keep the order of
    `clientes`), a refinement of the query. */
module Ranking {
  import opened Tables

  /** The `LIMIT` of the query. */
  const TopN := 5

  /** One row of the ranking. */
  datatype ClientRevenue = ClientRevenue(id: int, nome: string, email: string, telefone: string, totalReceita: int)

  /** The join condition together with the status filter: a collected receivable of client `id`. */
  predicate Received(r: Receivable, id: int) {
    r.clienteId == id && r.status == Recebido
  }

  /** The client appears in the inner join after the status filter. */
  predicate Qualifies(rs: seq<Receivable>, id: int) {
    exists i :: 0 <= i < |rs| && Received(rs[i], id)
  }

  /** Sum of the client's collected receivables. */
  function ReceivedSum(rs: seq<Receivable>, id: int): int {
    if |rs| == 0 then 0
    else (if Received(rs[0], id) then rs[0].valor else 0) + ReceivedSum(rs[1..], id)
  }

  /** The output row of a client: its columns and its summed revenue. */
  function Revenue(c: Client, rs: seq<Receivable>): ClientRevenue {
    ClientRevenue(c.id, c.nome, c.email, c.telefone, ReceivedSum(rs, c.id))
  }

  function IdsOf(s: seq<ClientRevenue>): set<int> {
    set x | x in s :: x.id
  }

  predicate DistinctIds(s: seq<ClientRevenue>) {
    forall i, j :: 0 <= i < j < |s| ==> s[i].id != s[j].id
  }

  predicate SortedDesc(s: seq<ClientRevenue>) {
    forall i, j :: 0 <= i < j < |s| ==> s[i].totalReceita >= s[j].totalReceita
  }

  /** `x` is the output row of a qualifying client of `cs`. */
  predicate IsRevenueRow(x: ClientRevenue, cs: seq<Client>, rs: seq<Receivable>) {
    exists c :: c in cs && Qualifies(rs, c.id) && x == Revenue(c, rs)
  }

  /** Every row of `s` is the output row of a qualifying client. */
  predicate FromQualifying(s: seq<ClientRevenue>, cs: seq<Client>, rs: seq<Receivable>) {
    forall i :: 0 <= i < |s| ==> IsRevenueRow(s[i], cs, rs)
  }

  /** The ids of the clients of `cs` that appear in the filtered join. */
  function QualifyingIds(cs: seq<Client>, rs: seq<Receivable>): set<int> {
    set c | c in cs && Qualifies(rs, c.id) :: c.id
  }

  /** The grouped join before ordering: one row per qualifying client, in
      `clientes` order, carrying the client's received sum; its ids are
      exactly the qualifying ids. */
  function Candidates(cs: seq<Client>, rs: seq<Receivable>): (r: seq<ClientRevenue>)
    ensures |r| <= |cs|
    ensures forall i :: 0 <= i < |r| ==>
      Qualifies(rs, r[i].id) && r[i].totalReceita == ReceivedSum(rs, r[i].id)
    ensures IdsOf(r) == QualifyingIds(cs, rs)
  {
    if |cs| == 0 then []
    else
      var rest := Candidates(cs[1..], rs);
      assert forall c :: c in cs <==> c == cs[0] || c in cs[1..];
      if Qualifies(rs, cs[0].id) then
        var r := [Revenue(cs[0], rs)] + rest;
        assert forall x :: x in r <==> x == Revenue(cs[0], rs) || x in rest;
        assert IdsOf(r) == {cs[0].id} + IdsOf(rest);
        assert QualifyingIds(cs, rs) == {cs[0].id} + QualifyingIds(cs[1..], rs);
        r
      else rest
  }

  /** Every candidate row is a qualifying client's row. */
  lemma {:induction false} CandidatesSound(cs: seq<Client>, rs: seq<Receivable>)
    ensures FromQualifying(Candidates(cs, rs), cs, rs)
  {
    if |cs| > 0 {
      var rest := Candidates(cs[1..], rs);
      CandidatesSound(cs[1..], rs);
      forall i | 0 <= i < |rest| ensures IsRevenueRow(rest[i], cs, rs) {
        assert IsRevenueRow(rest[i], cs[1..], rs);
        var c :| c in cs[1..] && Qualifies(rs, c.id) && rest[i] == Revenue(c, rs);
        assert c in cs;
      }
      if Qualifies(rs, cs[0].id) {
        assert IsRevenueRow(Revenue(cs[0], rs), cs, rs) by { assert cs[0] in cs; }
      }
    }
  }

  /** Every qualifying client has its candidate row. */
  lemma {:induction false} CandidatesComplete(cs: seq<Client>, rs: seq<Receivable>, c: Client)
    requires c in cs && Qualifies(rs, c.id)
    ensures Revenue(c, rs) in Candidates(cs, rs)
  {
    if c != cs[0] {
      assert c in cs[1..];
      CandidatesComplete(cs[1..], rs, c);
    }
  }

  /** Candidate rows carry distinct ids, since client ids are a key. */
  lemma {:induction false} CandidatesDistinct(cs: seq<Client>, rs: seq<Receivable>)
    requires UniqueIds(cs)
    ensures DistinctIds(Candidates(cs, rs))
  {
    if |cs| > 0 {
      var rest := Candidates(cs[1..], rs);
      assert UniqueIds(cs[1..]);
      CandidatesDistinct(cs[1..], rs);
      if Qualifies(rs, cs[0].id) {
        forall i | 0 <= i < |rest| ensures rest[i].id != cs[0].id {
          assert rest[i] in rest;
          assert rest[i].id in QualifyingIds(cs[1..], rs);
          var c :| c in cs[1..] && Qualifies(rs, c.id) && c.id == rest[i].id;
          var k :| 0 <= k < |cs[1..]| && cs[1..][k] == c;
          assert cs[k + 1] == c;
        }
      }
    }
  }

  /** Places `x` into a non-increasing sequence, before the first total not
      larger than its own: among equal totals, the row inserted last comes
      first. */
  function Insert(x: ClientRevenue, s: seq<ClientRevenue>): (r: seq<ClientRevenue>)
    requires SortedDesc(s)
    ensures SortedDesc(r)
    ensures multiset(r) == multiset(s) + multiset{x}
  {
    if |s| == 0 then [x]
    else if x.totalReceita >= s[0].totalReceita then
      assert AtMost(s, x.totalReceita);
      ConsSorted(x, s);
      [x] + s
    else
      var rest := Insert(x, s[1..]);
      assert s == [s[0]] + s[1..];
      assert AtMost(s[1..] + [x], s[0].totalReceita);
      AtMostPermutation(rest, s[1..] + [x], s[0].totalReceita);
      ConsSorted(s[0], rest);
      [s[0]] + rest
  }

  /** Every total of `s` is at most `v`. */
  predicate AtMost(s: seq<ClientRevenue>, v: int) {
    forall i :: 0 <= i < |s| ==> s[i].totalReceita <= v
  }

  lemma ConsSorted(h: ClientRevenue, t: seq<ClientRevenue>)
    requires SortedDesc(t) && AtMost(t, h.totalReceita)
    ensures SortedDesc([h] + t)
  {
  }

  lemma AtMostPermutation(a: seq<ClientRevenue>, b: seq<ClientRevenue>, v: int)
    requires multiset(a) == multiset(b) && AtMost(b, v)
    ensures AtMost(a, v)
  {
    forall i | 0 <= i < |a| ensures a[i].totalReceita <= v {
      assert a[i] in multiset(b);
      var j :| 0 <= j < |b| && b[j] == a[i];
    }
  }

  /** Sequences with the same multiset have the same elements. */
  lemma SameElements(a: seq<ClientRevenue>, b: seq<ClientRevenue>)
    requires multiset(a) == multiset(b)
    ensures forall y :: y in a <==> y in b
  {
    forall y ensures y in a <==> y in b {
      assert y in a <==> y in multiset(a);
      assert y in b <==> y in multiset(b);
    }
  }

  /** A permutation of a sequence with distinct ids has distinct ids. */
  lemma {:induction false} PermutationDistinctIds(a: seq<ClientRevenue>, b: seq<ClientRevenue>)
    requires multiset(a) == multiset(b) && DistinctIds(a)
    ensures DistinctIds(b)
    decreases |a|
  {
    if |a| > 0 {
      assert a[0] in multiset(b);
      var k :| 0 <= k < |b| && b[k] == a[0];
      var b' := b[..k] + b[k + 1..];
      RemoveMatching(a, b, k);
      PermutationDistinctIds(a[1..], b');
      SameElements(a[1..], b');
      forall i | 0 <= i < |b| && i != k ensures b[i].id != b[k].id {
        var i' := if i < k then i else i - 1;
        assert b'[i'] == b[i];
        assert b[i] in a[1..];
        var m :| 0 <= m < |a[1..]| && a[1..][m] == b[i];
        assert a[m + 1] == b[i];
      }
      DistinctWithout(b, k);
    }
  }

  /** Removing the same element from two permutations leaves permutations. */
  lemma RemoveMatching(a: seq<ClientRevenue>, b: seq<ClientRevenue>, k: int)
    requires multiset(a) == multiset(b) && |a| > 0 && 0 <= k < |b| && b[k] == a[0]
    ensures multiset(a[1..]) == multiset(b[..k] + b[k + 1..])
  {
    var x := a[0];
    assert b == b[..k] + [x] + b[k + 1..];
    assert multiset(b) == multiset(b[..k]) + multiset{x} + multiset(b[k + 1..]);
    assert a == [x] + a[1..];
    assert multiset(a) == multiset{x} + multiset(a[1..]);
    assert multiset(b[..k] + b[k + 1..]) == multiset(b[..k]) + multiset(b[k + 1..]);
    assert multiset(a[1..]) == multiset(a) - multiset{x};
    assert multiset(b[..k] + b[k + 1..]) == multiset(b) - multiset{x};
  }

  /** Distinct ids are kept when an element whose id is new is put back at `k`. */
  lemma DistinctWithout(b: seq<ClientRevenue>, k: int)
    requires 0 <= k < |b| && DistinctIds(b[..k] + b[k + 1..])
    requires forall i :: 0 <= i < |b| && i != k ==> b[i].id != b[k].id
    ensures DistinctIds(b)
  {
    var b' := b[..k] + b[k + 1..];
    forall i, j | 0 <= i < j < |b| && i != k && j != k ensures b[i].id != b[j].id {
      var i' := if i < k then i else i - 1;
      var j' := if j < k then j else j - 1;
      assert b'[i'] == b[i] && b'[j'] == b[j];
    }
  }

  /** `ORDER BY total_receita DESC`, by insertion. */
  function SortDesc(xs: seq<ClientRevenue>): (r: seq<ClientRevenue>)
    ensures SortedDesc(r)
    ensures multiset(r) == multiset(xs)
  {
    if |xs| == 0 then []
    else
      assert xs == [xs[0]] + xs[1..];
      Insert(xs[0], SortDesc(xs[1..]))
  }

  /** The ranking query. Client ids are the key of `clientes`, which the
      model takes as given. */
  function TopClients(cs: seq<Client>, rs: seq<Receivable>): (r: seq<ClientRevenue>)
    requires UniqueIds(cs)
    ensures |r| <= TopN
    ensures SortedDesc(r)
    ensures DistinctIds(r)
    ensures FromQualifying(r, cs, rs)
    ensures forall i :: 0 <= i < |r| ==>
      Qualifies(rs, r[i].id) && r[i].totalReceita == ReceivedSum(rs, r[i].id)
  {
    var cands := Candidates(cs, rs);
    var sorted := SortDesc(cands);
    CandidatesSound(cs, rs);
    CandidatesDistinct(cs, rs);
    PermutationFromQualifying(cands, sorted, cs, rs);
    PermutationDistinctIds(cands, sorted);
    var r := if |sorted| <= TopN then sorted else sorted[..TopN];
    assert forall i :: 0 <= i < |r| ==> IsRevenueRow(r[i], cs, rs);
    r
  }

  lemma PermutationFromQualifying(a: seq<ClientRevenue>, b: seq<ClientRevenue>, cs: seq<Client>, rs: seq<Receivable>)
    requires multiset(a) == multiset(b) && FromQualifying(a, cs, rs)
    ensures FromQualifying(b, cs, rs)
  {
    forall i | 0 <= i < |b| ensures IsRevenueRow(b[i], cs, rs) {
      assert b[i] in multiset(a);
      var j :| 0 <= j < |a| && a[j] == b[i];
      assert IsRevenueRow(a[j], cs, rs);
    }
  }

  /** Nothing better is left out: a qualifying client missing from the ranking
      means the ranking is full and the client's total is at most every
      returned total; so when at most five clients qualify, all are returned. */
  lemma TopClientsMaximal(cs: seq<Client>, rs: seq<Receivable>, c: Client)
    requires UniqueIds(cs)
    requires c in cs && Qualifies(rs, c.id)
    requires c.id !in IdsOf(TopClients(cs, rs))
    ensures |TopClients(cs, rs)| == TopN
    ensures forall i :: 0 <= i < TopN ==> ReceivedSum(rs, c.id) <= TopClients(cs, rs)[i].totalReceita
  {
    var cands := Candidates(cs, rs);
    var sorted := SortDesc(cands);
    var r := TopClients(cs, rs);
    CandidatesComplete(cs, rs, c);
    assert Revenue(c, rs) in multiset(sorted);
    var j :| 0 <= j < |sorted| && sorted[j] == Revenue(c, rs);
  }

  /** Every qualifying client is ranked when no more than five qualify. */
  lemma TopClientsAllWhenFew(cs: seq<Client>, rs: seq<Receivable>, c: Client)
    requires UniqueIds(cs)
    requires |QualifyingIds(cs, rs)| <= TopN
    requires c in cs && Qualifies(rs, c.id)
    ensures Revenue(c, rs) in TopClients(cs, rs)
  {
    CandidatesDistinct(cs, rs);
    DistinctIdsCount(Candidates(cs, rs));
    CandidatesComplete(cs, rs, c);
    assert Revenue(c, rs) in multiset(SortDesc(Candidates(cs, rs)));
  }

  /** Distinct ids: as many rows as ids. */
  lemma {:induction false} DistinctIdsCount(s: seq<ClientRevenue>)
    requires DistinctIds(s)
    ensures |IdsOf(s)| == |s|
  {
    if |s| > 0 {
      DistinctIdsCount(s[1..]);
      assert IdsOf(s) == {s[0].id} + IdsOf(s[1..]);
      assert s[0].id !in IdsOf(s[1..]);
    }
  }

  // ---------------------------------------------------------------------
  // Rows that never contribute
  // ---------------------------------------------------------------------

  lemma {:induction false} ReceivedAppend(rs: seq<Receivable>, x: Receivable, id: int)
    ensures ReceivedSum(rs + [x], id) == ReceivedSum(rs, id) + (if Received(x, id) then x.valor else 0)
    ensures Qualifies(rs + [x], id) <==> Qualifies(rs, id) || Received(x, id)
  {
    if |rs| == 0 {
      assert rs + [x] == [x];
      assert [x][1..] == [];
    } else {
      assert (rs + [x])[1..] == rs[1..] + [x];
      ReceivedAppend(rs[1..], x, id);
    }
    if Qualifies(rs, id) {
      var i :| 0 <= i < |rs| && Received(rs[i], id);
      assert (rs + [x])[i] == rs[i];
    }
    if Received(x, id) {
      assert (rs + [x])[|rs|] == x;
    }
    if Qualifies(rs + [x], id) && !Received(x, id) {
      var i :| 0 <= i < |rs + [x]| && Received((rs + [x])[i], id);
      assert i < |rs| && (rs + [x])[i] == rs[i];
    }
  }

  /** A receivable that is no client's collected receivable leaves the
      candidate rows unchanged. */
  lemma {:induction false} CandidatesIgnore(cs: seq<Client>, rs: seq<Receivable>, x: Receivable)
    requires forall c :: c in cs ==> !Received(x, c.id)
    ensures Candidates(cs, rs + [x]) == Candidates(cs, rs)
  {
    if |cs| > 0 {
      ReceivedAppend(rs, x, cs[0].id);
      assert forall c :: c in cs[1..] ==> c in cs;
      CandidatesIgnore(cs[1..], rs, x);
    }
  }

  /** A receivable whose status is not `'Recebido'` never changes the ranking. */
  lemma UncollectedIgnored(cs: seq<Client>, rs: seq<Receivable>, x: Receivable)
    requires UniqueIds(cs) && x.status != Recebido
    ensures TopClients(cs, rs + [x]) == TopClients(cs, rs)
  {
    CandidatesIgnore(cs, rs, x);
  }

  /** A receivable whose `cliente_id` matches no client never changes the
      ranking: the inner join drops it. */
  lemma DanglingIgnored(cs: seq<Client>, rs: seq<Receivable>, x: Receivable)
    requires UniqueIds(cs) && forall c :: c in cs ==> c.id != x.clienteId
    ensures TopClients(cs, rs + [x]) == TopClients(cs, rs)
  {
    CandidatesIgnore(cs, rs, x);
  }
}
