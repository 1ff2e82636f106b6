/**
 * The specification of one dispatch pass of the hub: for every active website and
 * every live validator, in that nesting order, one validate request under a fresh
 * callback id, and one pending record that replaces the closure the source stores
 * under that id. The requests are appended to what was already sent and the
 * records are added to the callback table already pending.
 */
module Dispatch {
  import opened Wrappers
  import opened Protocol
  import opened FreshIds
  import opened Registry

  datatype Website = Website(id: Id, url: string, disabled: bool)

  /** What a reply to one request is checked and recorded against. */
  datatype Pending = Pending(websiteId: Id, url: string, validatorId: Id, publicKey: PublicKey)

  /** `website.findMany({ where: { disabled: false } })`. */
  function ActiveWebsites(sites: seq<Website>): (r: seq<Website>)
    ensures forall w :: w in r <==> w in sites && !w.disabled
  {
    if sites == [] then []
    else (if sites[0].disabled then [] else [sites[0]]) + ActiveWebsites(sites[1..])
  }

  /** The request for website `w` sent to live entry `e` under callback id `id`: only the url and the id. */
  function RequestTo(w: Website, e: Entry, id: Id): Delivery {
    Delivery(e.socket, RequestMessage(ValidateRequest(w.url, id, None)))
  }

  /** The record a request for website `w` to live entry `e` leaves pending. */
  function PendingFor(w: Website, e: Entry): Pending {
    Pending(w.id, w.url, e.validatorId, e.publicKey)
  }

  /**
   * The first draw of row `i` of a pass that starts at draw `n` and draws `m` ids
   * per row: `n + i * m`, counted up row by row.
   */
  function RowStart(n: nat, m: nat, i: nat): (r: nat)
    ensures r >= n
  {
    if i == 0 then n else RowStart(n, m, i - 1) + m
  }

  lemma {:induction false} RowStartIs(n: nat, m: nat, i: nat)
    ensures RowStart(n, m, i) == n + i * m
  {
    if i > 0 {
      RowStartIs(n, m, i - 1);
      assert i * m == (i - 1) * m + m;
    }
  }

  /** Every row draws its ids before the rows after it. */
  lemma {:induction false} RowStartGrows(n: nat, m: nat, i: nat, k: nat)
    requires i < k
    ensures RowStart(n, m, i) + m <= RowStart(n, m, k)
  {
    if i < k - 1 {
      RowStartGrows(n, m, i, k - 1);
    }
  }

  /** `sent` followed by the requests for website `w` to the first `count` entries of `vs`, ids drawn from `n` on. */
  function RowSent(sent: seq<Delivery>, w: Website, vs: seq<Entry>, n: nat, count: nat): seq<Delivery>
    requires count <= |vs|
  {
    if count == 0 then sent
    else RowSent(sent, w, vs, n, count - 1) + [RequestTo(w, vs[count - 1], n + count - 1)]
  }

  /** `table` with the records of those same requests registered. */
  function RowTable(table: map<Id, Pending>, w: Website, vs: seq<Entry>, n: nat, count: nat): map<Id, Pending>
    requires count <= |vs|
  {
    if count == 0 then table
    else RowTable(table, w, vs, n, count - 1)[n + count - 1 := PendingFor(w, vs[count - 1])]
  }

  /** `sent` followed by the requests for the first `count` websites of `ws`, each to every entry of `vs`. */
  function PlanSent(sent: seq<Delivery>, ws: seq<Website>, vs: seq<Entry>, n: nat, count: nat): seq<Delivery>
    requires count <= |ws|
  {
    if count == 0 then sent
    else RowSent(PlanSent(sent, ws, vs, n, count - 1), ws[count - 1], vs, RowStart(n, |vs|, count - 1), |vs|)
  }

  /** `table` with the records of those same requests registered. */
  function PlanTable(table: map<Id, Pending>, ws: seq<Website>, vs: seq<Entry>, n: nat, count: nat): map<Id, Pending>
    requires count <= |ws|
  {
    if count == 0 then table
    else RowTable(PlanTable(table, ws, vs, n, count - 1), ws[count - 1], vs, RowStart(n, |vs|, count - 1), |vs|)
  }

  /**
   * A row keeps what was sent and appends one request per entry, in registry
   * order, the `j`-th under the id of draw `n + j`.
   */
  lemma {:induction false} RowSentShape(sent: seq<Delivery>, w: Website, vs: seq<Entry>, n: nat, count: nat)
    requires count <= |vs|
    ensures |RowSent(sent, w, vs, n, count)| == |sent| + count
    ensures RowSent(sent, w, vs, n, count)[..|sent|] == sent
    ensures forall j :: 0 <= j < count ==> RowSent(sent, w, vs, n, count)[|sent| + j] == RequestTo(w, vs[j], n + j)
  {
    if count > 0 {
      RowSentShape(sent, w, vs, n, count - 1);
      var r := RowSent(sent, w, vs, n, count - 1);
      assert RowSent(sent, w, vs, n, count)[..|r|] == r;
    }
  }

  /** A row registers exactly the ids of draws `n` to `n + count - 1` besides those already there. */
  lemma {:induction false} RowTableKeys(table: map<Id, Pending>, w: Website, vs: seq<Entry>, n: nat, count: nat)
    requires count <= |vs|
    ensures forall id :: id in RowTable(table, w, vs, n, count) <==> id in table || n <= id < n + count
  {
    if count > 0 {
      RowTableKeys(table, w, vs, n, count - 1);
    }
  }

  /** Over a table whose ids were all drawn before draw `n`, a row adds `count` entries. */
  lemma {:induction false} RowTableSize(table: map<Id, Pending>, w: Website, vs: seq<Entry>, n: nat, count: nat)
    requires count <= |vs|
    requires IssuedBefore(table.Keys, n)
    ensures |RowTable(table, w, vs, n, count)| == |table| + count
  {
    if count > 0 {
      RowTableSize(table, w, vs, n, count - 1);
      RowTableKeys(table, w, vs, n, count - 1);
      assert n + count - 1 !in RowTable(table, w, vs, n, count - 1);
    }
  }

  /** Over a table whose ids were all drawn before draw `n`, a row keeps every entry already there. */
  lemma {:induction false} RowTableKeeps(table: map<Id, Pending>, w: Website, vs: seq<Entry>, n: nat, count: nat)
    requires count <= |vs|
    requires IssuedBefore(table.Keys, n)
    ensures forall id :: id in table ==>
      id in RowTable(table, w, vs, n, count) && RowTable(table, w, vs, n, count)[id] == table[id]
  {
    if count > 0 {
      RowTableKeeps(table, w, vs, n, count - 1);
    }
  }

  /** A row holds the record for entry `j` under the id of draw `n + j`. */
  lemma {:induction false} RowTableAt(table: map<Id, Pending>, w: Website, vs: seq<Entry>, n: nat, count: nat)
    requires count <= |vs|
    ensures forall id :: n <= id < n + count ==>
      id in RowTable(table, w, vs, n, count) && RowTable(table, w, vs, n, count)[id] == PendingFor(w, vs[id - n])
  {
    if count > 0 {
      RowTableAt(table, w, vs, n, count - 1);
    }
  }

  /** A pass over `count` websites keeps what was sent and appends `|vs|` requests per website. */
  lemma {:induction false} PlanSentLength(sent: seq<Delivery>, ws: seq<Website>, vs: seq<Entry>, n: nat, count: nat)
    requires count <= |ws|
    ensures |PlanSent(sent, ws, vs, n, count)| == RowStart(|sent|, |vs|, count)
    ensures PlanSent(sent, ws, vs, n, count)[..|sent|] == sent
  {
    if count > 0 {
      var p := PlanSent(sent, ws, vs, n, count - 1);
      PlanSentLength(sent, ws, vs, n, count - 1);
      RowSentShape(p, ws[count - 1], vs, RowStart(n, |vs|, count - 1), |vs|);
      assert PlanSent(sent, ws, vs, n, count)[..|sent|] == p[..|p|][..|sent|];
    }
  }

  /**
   * Request `j` for website `i` of a pass is sent in row `i` at place `j`, websites
   * outer and entries inner, under the id drawn at that place.
   */
  lemma {:induction false} PlanSentAt(sent: seq<Delivery>, ws: seq<Website>, vs: seq<Entry>, n: nat, count: nat, i: nat, j: nat)
    requires i < count <= |ws| && j < |vs|
    ensures RowStart(|sent|, |vs|, i) + j < |PlanSent(sent, ws, vs, n, count)|
    ensures PlanSent(sent, ws, vs, n, count)[RowStart(|sent|, |vs|, i) + j] == RequestTo(ws[i], vs[j], RowStart(n, |vs|, i) + j)
  {
    var p := PlanSent(sent, ws, vs, n, count - 1);
    PlanSentLength(sent, ws, vs, n, count - 1);
    RowSentShape(p, ws[count - 1], vs, RowStart(n, |vs|, count - 1), |vs|);
    if i < count - 1 {
      PlanSentAt(sent, ws, vs, n, count - 1, i, j);
      RowStartGrows(|sent|, |vs|, i, count - 1);
      var k := RowStart(|sent|, |vs|, i) + j;
      assert PlanSent(sent, ws, vs, n, count)[k] == PlanSent(sent, ws, vs, n, count)[..|p|][k];
    }
  }

  /** A pass registers exactly the ids drawn during it besides those already there. */
  lemma {:induction false} PlanTableKeys(table: map<Id, Pending>, ws: seq<Website>, vs: seq<Entry>, n: nat, count: nat)
    requires count <= |ws|
    requires IssuedBefore(table.Keys, n)
    ensures forall id :: id in PlanTable(table, ws, vs, n, count) <==> id in table || n <= id < RowStart(n, |vs|, count)
  {
    if count > 0 {
      var p := PlanTable(table, ws, vs, n, count - 1);
      PlanTableKeys(table, ws, vs, n, count - 1);
      RowTableKeys(p, ws[count - 1], vs, RowStart(n, |vs|, count - 1), |vs|);
    }
  }

  /** Over a table whose ids were all drawn before draw `n`, a pass adds `count * |vs|` entries. */
  lemma {:induction false} PlanTableSize(table: map<Id, Pending>, ws: seq<Website>, vs: seq<Entry>, n: nat, count: nat)
    requires count <= |ws|
    requires IssuedBefore(table.Keys, n)
    ensures |PlanTable(table, ws, vs, n, count)| == |table| + count * |vs|
  {
    if count > 0 {
      var p := PlanTable(table, ws, vs, n, count - 1);
      assert |p| == |table| + (count - 1) * |vs| by {
        PlanTableSize(table, ws, vs, n, count - 1);
      }
      assert |PlanTable(table, ws, vs, n, count)| == |p| + |vs| by {
        PlanTableKeys(table, ws, vs, n, count - 1);
        RowTableSize(p, ws[count - 1], vs, RowStart(n, |vs|, count - 1), |vs|);
      }
      assert count * |vs| == (count - 1) * |vs| + |vs|;
    }
  }

  /** Over a table whose ids were all drawn before draw `n`, a pass keeps every entry already there. */
  lemma {:induction false} PlanTableKeeps(table: map<Id, Pending>, ws: seq<Website>, vs: seq<Entry>, n: nat, count: nat)
    requires count <= |ws|
    requires IssuedBefore(table.Keys, n)
    ensures forall id :: id in table ==>
      id in PlanTable(table, ws, vs, n, count) && PlanTable(table, ws, vs, n, count)[id] == table[id]
  {
    if count > 0 {
      var p := PlanTable(table, ws, vs, n, count - 1);
      PlanTableKeeps(table, ws, vs, n, count - 1);
      PlanTableKeys(table, ws, vs, n, count - 1);
      RowTableKeeps(p, ws[count - 1], vs, RowStart(n, |vs|, count - 1), |vs|);
    }
  }

  /** A pass holds the record for website `i` and entry `j` under the id drawn at that place. */
  lemma {:induction false} PlanTableAt(table: map<Id, Pending>, ws: seq<Website>, vs: seq<Entry>, n: nat, count: nat, i: nat, j: nat)
    requires i < count <= |ws| && j < |vs|
    requires IssuedBefore(table.Keys, n)
    ensures RowStart(n, |vs|, i) + j in PlanTable(table, ws, vs, n, count)
    ensures PlanTable(table, ws, vs, n, count)[RowStart(n, |vs|, i) + j] == PendingFor(ws[i], vs[j])
  {
    var p := PlanTable(table, ws, vs, n, count - 1);
    if i < count - 1 {
      PlanTableAt(table, ws, vs, n, count - 1, i, j);
      PlanTableKeys(table, ws, vs, n, count - 1);
      RowStartGrows(n, |vs|, i, count - 1);
      RowTableKeeps(p, ws[count - 1], vs, RowStart(n, |vs|, count - 1), |vs|);
    } else {
      RowTableAt(p, ws[count - 1], vs, RowStart(n, |vs|, count - 1), |vs|);
    }
  }

  /** All requests a pass over websites `ws` and live entries `vs` sends after `sent`. */
  function PassSent(sent: seq<Delivery>, ws: seq<Website>, vs: seq<Entry>, n: nat): seq<Delivery> {
    PlanSent(sent, ws, vs, n, |ws|)
  }

  /** The callback table after a pass over `ws` and `vs`. */
  function PassTable(table: map<Id, Pending>, ws: seq<Website>, vs: seq<Entry>, n: nat): map<Id, Pending> {
    PlanTable(table, ws, vs, n, |ws|)
  }

  /** A pass sends exactly `|ws| * |vs|` requests after what was already sent. */
  lemma PassSentLength(sent: seq<Delivery>, ws: seq<Website>, vs: seq<Entry>, n: nat)
    ensures |PassSent(sent, ws, vs, n)| == |sent| + |ws| * |vs|
    ensures PassSent(sent, ws, vs, n)[..|sent|] == sent
  {
    PlanSentLength(sent, ws, vs, n, |ws|);
    RowStartIs(|sent|, |vs|, |ws|);
  }

  /**
   * The request for website `i` and live entry `j` is sent at position
   * `i * |vs| + j` of the pass, websites outer and entries inner, under the id of
   * the draw at that position.
   */
  lemma PassSentAt(sent: seq<Delivery>, ws: seq<Website>, vs: seq<Entry>, n: nat, i: nat, j: nat)
    requires i < |ws| && j < |vs|
    ensures |sent| + i * |vs| + j < |PassSent(sent, ws, vs, n)|
    ensures PassSent(sent, ws, vs, n)[|sent| + i * |vs| + j] == RequestTo(ws[i], vs[j], n + i * |vs| + j)
  {
    PlanSentAt(sent, ws, vs, n, |ws|, i, j);
    PlanSentLength(sent, ws, vs, n, |ws|);
    RowStartIs(|sent|, |vs|, i);
    RowStartIs(n, |vs|, i);
  }

  /** A pass registers exactly the `|ws| * |vs|` ids drawn next besides those already pending. */
  lemma PassTableKeys(table: map<Id, Pending>, ws: seq<Website>, vs: seq<Entry>, n: nat)
    requires IssuedBefore(table.Keys, n)
    ensures forall id :: id in PassTable(table, ws, vs, n) <==> id in table || n <= id < n + |ws| * |vs|
  {
    PlanTableKeys(table, ws, vs, n, |ws|);
    RowStartIs(n, |vs|, |ws|);
  }

  /** Over a table whose ids were all drawn before draw `n`, a pass adds exactly `|ws| * |vs|` entries. */
  lemma PassTableSize(table: map<Id, Pending>, ws: seq<Website>, vs: seq<Entry>, n: nat)
    requires IssuedBefore(table.Keys, n)
    ensures |PassTable(table, ws, vs, n)| == |table| + |ws| * |vs|
  {
    PlanTableSize(table, ws, vs, n, |ws|);
  }

  /** A pass keeps every entry already pending. */
  lemma PassTableKeeps(table: map<Id, Pending>, ws: seq<Website>, vs: seq<Entry>, n: nat)
    requires IssuedBefore(table.Keys, n)
    ensures forall id :: id in table ==> id in PassTable(table, ws, vs, n) && PassTable(table, ws, vs, n)[id] == table[id]
  {
    PlanTableKeeps(table, ws, vs, n, |ws|);
  }

  /**
   * After a pass, the id of draw `n + i * |vs| + j` holds the record for website `i`
   * and live entry `j`: the request sent at that position of the pass.
   */
  lemma PassTableAt(table: map<Id, Pending>, ws: seq<Website>, vs: seq<Entry>, n: nat, i: nat, j: nat)
    requires i < |ws| && j < |vs|
    requires IssuedBefore(table.Keys, n)
    ensures n + i * |vs| + j in PassTable(table, ws, vs, n)
    ensures PassTable(table, ws, vs, n)[n + i * |vs| + j] == PendingFor(ws[i], vs[j])
  {
    PlanTableAt(table, ws, vs, n, |ws|, i, j);
    RowStartIs(n, |vs|, i);
  }

  /** A pass with no active website or no live validator sends nothing and registers nothing. */
  lemma {:induction false} EmptyPass(sent: seq<Delivery>, table: map<Id, Pending>, ws: seq<Website>, vs: seq<Entry>, n: nat, count: nat)
    requires count <= |ws|
    requires count == 0 || |vs| == 0
    ensures PlanSent(sent, ws, vs, n, count) == sent && PlanTable(table, ws, vs, n, count) == table
  {
    if count > 0 {
      EmptyPass(sent, table, ws, vs, n, count - 1);
    }
  }
}
