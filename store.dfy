/**
 * The client records the controllers read, and the two ways they look a client up: the
 * overlap controller's id-keyed index, filled once by `forEach`, and the portfolio
 * controller's `find` over the list.
 */
module Store {
  import opened Wrappers
  import opened JsObject

  datatype Fund = Fund(fundCode: string, amount: real, holdings: Dict, sectors: Dict)

  datatype Client = Client(clientId: string, currency: string, funds: seq<Fund>)

  datatype ClientSummary = ClientSummary(clientId: string, currency: string)

  /** `clients.find(c => c.clientId === id)`: the first client with that id. */
  function FindClient(clients: seq<Client>, id: string): (r: Option<Client>)
    decreases |clients|
    ensures r.None? <==> forall i :: 0 <= i < |clients| ==> clients[i].clientId != id
    ensures r.Some? ==> r.value in clients && r.value.clientId == id
    ensures r.Some? ==>
      exists i :: 0 <= i < |clients| && clients[i] == r.value && forall j :: 0 <= j < i ==> clients[j].clientId != id
  {
    if clients == [] then None
    else if clients[0].clientId == id then Some(clients[0])
    else
      var r := FindClient(clients[1..], id);
      assert forall i :: 1 <= i < |clients| ==> clients[i] == clients[1..][i - 1];
      r
  }

  /** The last client with that id: the one left in the index after every earlier one was overwritten. */
  function LastClient(clients: seq<Client>, id: string): (r: Option<Client>)
    decreases |clients|
    ensures r.None? <==> forall i :: 0 <= i < |clients| ==> clients[i].clientId != id
    ensures r.Some? ==> r.value in clients && r.value.clientId == id
  {
    if clients == [] then None
    else if clients[|clients| - 1].clientId == id then Some(clients[|clients| - 1])
    else LastClient(clients[..|clients| - 1], id)
  }

  function Lookup(m: map<string, Client>, id: string): Option<Client>
  {
    if id in m then Some(m[id]) else None
  }

  /** `clients.forEach(c => (CLIENTS[c.clientId] = c))` */
  method IndexClients(clients: seq<Client>) returns (byId: map<string, Client>)
    ensures forall id :: Lookup(byId, id) == LastClient(clients, id)
  {
    byId := map[];
    for i := 0 to |clients|
      invariant forall id :: Lookup(byId, id) == LastClient(clients[..i], id)
    {
      var c := clients[i];
      assert clients[..i + 1][..i] == clients[..i];
      byId := byId[c.clientId := c];
    }
    assert clients[..|clients|] == clients;
  }

  /** `clients.map(c => ({ clientId: c.clientId, currency: c.currency }))` */
  function ClientSummaries(clients: seq<Client>): (r: seq<ClientSummary>)
    ensures |r| == |clients|
    ensures forall i :: 0 <= i < |clients| ==> r[i] == ClientSummary(clients[i].clientId, clients[i].currency)
  {
    seq(|clients|, i requires 0 <= i < |clients| => ClientSummary(clients[i].clientId, clients[i].currency))
  }

  /** Every listed id resolves in the index, and every id that resolves is listed. */
  lemma {:induction false} ListedClientsResolve(clients: seq<Client>, id: string)
    ensures LastClient(clients, id).Some? <==>
      exists i :: 0 <= i < |clients| && ClientSummaries(clients)[i].clientId == id
  {
    var listed := ClientSummaries(clients);
    if LastClient(clients, id).Some? {
      var i :| 0 <= i < |clients| && clients[i] == LastClient(clients, id).value;
      assert listed[i].clientId == id;
    }
  }

  /** When ids are unique, as client identifiers are meant to be, `find` and the index agree. */
  lemma {:induction false} UniqueIdsLookupsAgree(clients: seq<Client>, id: string)
    requires forall i, j :: 0 <= i < j < |clients| ==> clients[i].clientId != clients[j].clientId
    ensures FindClient(clients, id) == LastClient(clients, id)
    decreases |clients|
  {
    if clients != [] {
      var init, last := clients[..|clients| - 1], clients[|clients| - 1];
      assert clients == init + [last];
      if last.clientId == id {
        forall i | 0 <= i < |init|
          ensures init[i].clientId != id
        {
          assert clients[i] == init[i];
        }
        FindAppendMissing(init, last, id);
      } else {
        UniqueIdsLookupsAgree(init, id);
        FindAppendOther(init, last, id);
      }
    }
  }

  lemma {:induction false} FindAppendMissing(init: seq<Client>, c: Client, id: string)
    requires forall i :: 0 <= i < |init| ==> init[i].clientId != id
    requires c.clientId == id
    ensures FindClient(init + [c], id) == Some(c)
    decreases |init|
  {
    if init != [] {
      assert (init + [c])[1..] == init[1..] + [c];
      FindAppendMissing(init[1..], c, id);
    }
  }

  lemma {:induction false} FindAppendOther(init: seq<Client>, c: Client, id: string)
    requires c.clientId != id
    ensures FindClient(init + [c], id) == FindClient(init, id)
    decreases |init|
  {
    if init != [] {
      assert (init + [c])[1..] == init[1..] + [c];
      FindAppendOther(init[1..], c, id);
    }
  }
}
