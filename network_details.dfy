/**
 * The network details page: the host, gateway, client and DNS lists it
 * derives from the store, and the state it updates after the API answers.
 */
module NetworkDetails {
  import Seqs
  import Text
  import opened Entities

  // ---------------------------------------------------------------------
  // Derived views
  // ---------------------------------------------------------------------

  /** The host search: the lower-cased address includes the lower-cased search text. */
  function AddressMatches(searchHost: string): Node -> bool
  {
    (n: Node) => Text.Includes(Text.Lower(n.address), Text.Lower(searchHost))
  }

  /** A node the hosts tab lists: it is in the network and its address matches the search. */
  predicate HostListed(n: Node, networkId: Option<string>, searchHost: string)
  {
    InNetwork(n.network, networkId) && Text.Includes(Text.Lower(n.address), Text.Lower(searchHost))
  }

  /**
   * The hosts tab: the store's nodes of this network whose address matches
   * the search, as an order-preserving selection of the store's nodes.
   */
  function NetworkHosts(nodes: seq<Node>, networkId: Option<string>, searchHost: string): (r: seq<Node>)
    ensures forall n :: n in r <==> n in nodes && HostListed(n, networkId, searchHost)
    ensures forall n :: multiset(r)[n] == if HostListed(n, networkId, searchHost) then multiset(nodes)[n] else 0
    ensures Seqs.IsSubseq(r, nodes)
  {
    var inNetwork := OfNetwork(nodes, networkId);
    var r := Seqs.Filter(inNetwork, AddressMatches(searchHost));
    Seqs.SubseqTransitive(r, inNetwork, nodes);
    r
  }

  /** With an empty search the hosts tab lists every node of the network. */
  lemma NetworkHostsEmptySearch(nodes: seq<Node>, networkId: Option<string>)
    ensures NetworkHosts(nodes, networkId, "") == OfNetwork(nodes, networkId)
  {
    var inNetwork := OfNetwork(nodes, networkId);
    forall n | n in inNetwork
      ensures AddressMatches("")(n)
    {
      Text.IncludesEmpty(Text.Lower(n.address));
    }
    Seqs.FilterKeepsAll(inNetwork, AddressMatches(""));
  }

  function IsIngress(n: Node): bool { n.isingressgateway }

  /** The listed hosts that are client (ingress) gateways, in listing order. */
  function Gateways(hosts: seq<Node>): (r: seq<Node>)
    ensures forall n :: n in r <==> n in hosts && n.isingressgateway
    ensures forall n :: multiset(r)[n] == if n.isingressgateway then multiset(hosts)[n] else 0
    ensures Seqs.IsSubseq(r, hosts)
  {
    Seqs.Filter(hosts, IsIngress)
  }

  /**
   * The gateways table: one decorated entry per listed ingress host, in the
   * same order; `extend` stands for the host-details decoration.
   */
  function ClientGateways(hosts: seq<Node>, extend: Node -> ExtendedNode): (r: seq<ExtendedNode>)
    ensures |r| == |Gateways(hosts)|
    ensures forall i :: 0 <= i < |r| ==> r[i] == extend(Gateways(hosts)[i])
    ensures forall g :: g in r <==> exists n :: n in hosts && n.isingressgateway && g == extend(n)
  {
    Seqs.Map(Gateways(hosts), extend)
  }

  /** The clients the page keeps after loading: those of this network, in order. */
  function ClientsOfNetwork(all: seq<ExternalClient>, networkId: string): (r: seq<ExternalClient>)
    ensures forall c :: c in r <==> c in all && c.network == networkId
    ensures forall c :: multiset(r)[c] == if c.network == networkId then multiset(all)[c] else 0
    ensures Seqs.IsSubseq(r, all)
  {
    Seqs.Filter(all, (c: ExternalClient) => c.network == networkId)
  }

  /** The DNS entries the page keeps after loading: those of this network, in order. */
  function DnsesOfNetwork(all: seq<Dns>, networkId: string): (r: seq<Dns>)
    ensures forall d :: d in r <==> d in all && d.network == networkId
    ensures forall d :: multiset(r)[d] == if d.network == networkId then multiset(all)[d] else 0
    ensures Seqs.IsSubseq(r, all)
  {
    Seqs.Filter(all, (d: Dns) => d.network == networkId)
  }

  /** The client list after a successful delete: every client with that id is gone, the rest stay in order. */
  function WithoutClient(clients: seq<ExternalClient>, clientid: string): (r: seq<ExternalClient>)
    ensures forall c :: c in r <==> c in clients && c.clientid != clientid
    ensures forall c :: multiset(r)[c] == if c.clientid != clientid then multiset(clients)[c] else 0
    ensures Seqs.IsSubseq(r, clients)
  {
    Seqs.Filter(clients, (c: ExternalClient) => c.clientid != clientid)
  }

  /**
   * The DNS list after a successful delete, as written: the callback's own
   * parameter shadows the deleted entry, so the kept-entry test compares a
   * name with itself, never holds, and the whole list is dropped.
   */
  function DnsesAfterDelete(dnses: seq<Dns>): (r: seq<Dns>)
    ensures r == []
  {
    Seqs.Filter(dnses, (dns: Dns) => dns.name != dns.name)
  }

  /**
   * The page's network: the first network of the store whose `netid` is the
   * route's id, or none when no network has it.
   */
  function FindNetwork(networks: seq<Network>, networkId: Option<string>): (r: Option<Network>)
    ensures r.None? <==> forall i :: 0 <= i < |networks| ==> !InNetwork(networks[i].netid, networkId)
    ensures r.Some? ==> exists i :: (
      0 <= i < |networks| && networks[i] == r.value && InNetwork(r.value.netid, networkId)
      && forall j :: 0 <= j < i ==> !InNetwork(networks[j].netid, networkId))
  {
    if networks == [] then None
    else if InNetwork(networks[0].netid, networkId) then Some(networks[0])
    else
      var r := FindNetwork(networks[1..], networkId);
      assert forall i :: 0 < i < |networks| ==> networks[i] == networks[1..][i - 1];
      if r.Some? then
        var i :| 0 <= i < |networks[1..]| && networks[1..][i] == r.value
          && InNetwork(r.value.netid, networkId)
          && forall j :: 0 <= j < i ==> !InNetwork(networks[1..][j].netid, networkId);
        assert networks[i + 1] == r.value;
        assert forall j :: 0 <= j < i + 1 ==> !InNetwork(networks[j].netid, networkId);
        r
      else
        r
  }

  /** The DNS table's entry column: `name.network`. */
  function DnsLabel(dns: Dns): (r: string)
    ensures |r| == |dns.name| + 1 + |dns.network|
    ensures r[..|dns.name|] == dns.name && r[|dns.name|] == '.' && r[|dns.name| + 1..] == dns.network
  {
    dns.name + "." + dns.network
  }

  datatype DnsRow = DnsRow(entryName: string, entry: Dns)

  /**
   * The DNS table: one row per entry of the list, in order, labelled
   * `name.network`. The search text is accepted and plays no part.
   */
  function DnsTable(dnses: seq<Dns>, searchDns: string): (rows: seq<DnsRow>)
    ensures |rows| == |dnses|
    ensures forall i :: 0 <= i < |rows| ==> rows[i].entry == dnses[i] && rows[i].entryName == DnsLabel(dnses[i])
  {
    seq(|dnses|, i requires 0 <= i < |dnses| => DnsRow(DnsLabel(dnses[i]), dnses[i]))
  }

  /** `!networkId`: the route gave no id, or an empty one. */
  predicate Falsy(networkId: Option<string>)
  {
    networkId.None? || networkId.value == ""
  }

  /** How the id prints inside a template string. */
  function IdText(networkId: Option<string>): string
  {
    if networkId.None? then "undefined" else networkId.value
  }

  /** The notice shown for a failed call: only errors from the HTTP client are reported. */
  function Report<T>(call: Call<T>, message: string): Option<string>
  {
    if call.Threw? && call.isAxiosError then Some(message) else None
  }

  /** What loading the network did besides updating state. */
  datatype LoadOutcome = LoadOutcome(navigatedToNetworks: bool, notice: Option<string>)

  // ---------------------------------------------------------------------
  // Page state
  // ---------------------------------------------------------------------

  /** The page component's state fields and the handlers that update them. */
  class NetworkDetailsPage {
    const networkId: Option<string>
    var network: Option<Network>
    var isLoading: bool
    var isEditing: bool
    var searchHost: string
    var searchDns: string
    var dnses: seq<Dns>
    var isAddDnsModalOpen: bool
    var clients: seq<ExternalClient>

    /** The state on first render. */
    constructor (networkId: Option<string>)
      ensures this.networkId == networkId
      ensures network == None && !isLoading && !isEditing
      ensures searchHost == "" && searchDns == ""
      ensures dnses == [] && !isAddDnsModalOpen && clients == []
    {
      this.networkId := networkId;
      network := None;
      isLoading := false;
      isEditing := false;
      searchHost := "";
      searchDns := "";
      dnses := [];
      isAddDnsModalOpen := false;
      clients := [];
    }

    /**
     * The hosts tab for the store's current nodes: only this network's
     * nodes, and with the search box cleared all of them, in store order.
     */
    function HostRows(nodes: seq<Node>): (r: seq<Node>)
      reads this
      ensures forall n :: n in r ==> n in nodes && InNetwork(n.network, networkId)
      ensures searchHost == "" ==> r == OfNetwork(nodes, networkId)
    {
      NetworkHostsEmptySearch(nodes, networkId);
      NetworkHosts(nodes, networkId, searchHost)
    }

    /**
     * The gateways table for the store's current nodes: with the host search
     * cleared, exactly the decorated ingress gateways of this network.
     */
    function GatewayRows(nodes: seq<Node>, extend: Node -> ExtendedNode): (r: seq<ExtendedNode>)
      reads this
      ensures forall g :: g in r ==> exists n :: n in nodes && InNetwork(n.network, networkId) && n.isingressgateway && g == extend(n)
      ensures searchHost == "" ==>
        forall g :: g in r <==> exists n :: n in nodes && InNetwork(n.network, networkId) && n.isingressgateway && g == extend(n)
    {
      ClientGateways(HostRows(nodes), extend)
    }

    /**
     * The DNS tab's table: one row per loaded entry, labelled `name.network`,
     * whatever is typed in the DNS search box.
     */
    function DnsRows(): (rows: seq<DnsRow>)
      reads this
      ensures |rows| == |dnses|
      ensures forall i :: 0 <= i < |rows| ==> rows[i].entry == dnses[i] && rows[i].entryName == DnsLabel(dnses[i])
      ensures rows == DnsTable(dnses, "")
    {
      DnsTable(dnses, searchDns)
    }

    method SetSearchHost(text: string)
      modifies this`searchHost
      ensures searchHost == text
    {
      searchHost := text;
    }

    method SetSearchDns(text: string)
      modifies this`searchDns
      ensures searchDns == text
    {
      searchDns := text;
    }

    /** The Edit button. */
    method StartEditing()
      modifies this`isEditing
      ensures isEditing
    {
      isEditing := true;
    }

    /** The Add DNS button. */
    method OpenAddDnsModal()
      modifies this`isAddDnsModalOpen
      ensures isAddDnsModalOpen
    {
      isAddDnsModalOpen := true;
    }

    /** The add-DNS modal's cancel. */
    method CancelAddDnsModal()
      modifies this`isAddDnsModalOpen
      ensures !isAddDnsModalOpen
    {
      isAddDnsModalOpen := false;
    }

    /**
     * The confirmed delete of a client, given the outcome of the delete call:
     * on success every client with that id leaves the list; on failure the
     * list stays as it was.
     */
    method ConfirmDeleteClient(client: ExternalClient, call: Call<()>) returns (notice: Option<string>)
      modifies this`clients
      ensures call.Returned? ==> clients == WithoutClient(old(clients), client.clientid)
      ensures call.Threw? ==> clients == old(clients)
      ensures notice == Report(call, "Error deleting Client")
    {
      if call.Returned? {
        clients := WithoutClient(clients, client.clientid);
      }
      notice := Report(call, "Error deleting Client");
    }

    /** The confirmed delete of a DNS entry: as written, success empties the list. */
    method ConfirmDeleteDns(dns: Dns, call: Call<()>) returns (notice: Option<string>)
      modifies this`dnses
      ensures call.Returned? ==> dnses == []
      ensures call.Threw? ==> dnses == old(dnses)
      ensures notice == Report(call, "Error deleting DNS")
    {
      if call.Returned? {
        dnses := DnsesAfterDelete(dnses);
      }
      notice := Report(call, "Error deleting DNS");
    }

    /** A DNS entry was created: it goes to the end of the list and the modal closes. */
    method OnCreateDns(dns: Dns)
      modifies this`dnses, this`isAddDnsModalOpen
      ensures dnses == old(dnses) + [dns]
      ensures !isAddDnsModalOpen
    {
      dnses := dnses + [dns];
      isAddDnsModalOpen := false;
    }

    /**
     * Loading the clients, given the outcome of the list call: without an id
     * nothing is fetched; on success the list becomes this network's clients.
     */
    method LoadClients(call: Call<seq<ExternalClient>>) returns (notice: Option<string>)
      modifies this`clients
      ensures Falsy(networkId) ==> clients == old(clients) && notice == None
      ensures !Falsy(networkId) && call.Returned? ==> clients == ClientsOfNetwork(call.value, networkId.value)
      ensures !Falsy(networkId) && call.Threw? ==> clients == old(clients)
      ensures !Falsy(networkId) ==> notice == Report(call, "Error loading clients")
    {
      if Falsy(networkId) {
        return None;
      }
      if call.Returned? {
        clients := ClientsOfNetwork(call.value, networkId.value);
      }
      notice := Report(call, "Error loading clients");
    }

    /** Loading the DNS entries, in the same way as the clients. */
    method LoadDnses(call: Call<seq<Dns>>) returns (notice: Option<string>)
      modifies this`dnses
      ensures Falsy(networkId) ==> dnses == old(dnses) && notice == None
      ensures !Falsy(networkId) && call.Returned? ==> dnses == DnsesOfNetwork(call.value, networkId.value)
      ensures !Falsy(networkId) && call.Threw? ==> dnses == old(dnses)
      ensures !Falsy(networkId) ==> notice == Report(call, "Error loading DNSes")
    {
      if Falsy(networkId) {
        return None;
      }
      if call.Returned? {
        dnses := DnsesOfNetwork(call.value, networkId.value);
      }
      notice := Report(call, "Error loading DNSes");
    }

    /**
     * Loading the network from the store's list. A missing id sends the user
     * to the networks list but the lookup still runs. When no network has the
     * id, the user is told and sent away and the network state is left alone,
     * with the loading flag still raised.
     */
    method LoadNetwork(storeNetworks: seq<Network>) returns (outcome: LoadOutcome)
      modifies this`network, this`isLoading
      ensures FindNetwork(storeNetworks, networkId).None? ==>
        network == old(network) && isLoading
        && outcome == LoadOutcome(true, Some("Network " + IdText(networkId) + " not found"))
      ensures FindNetwork(storeNetworks, networkId).Some? ==>
        network == FindNetwork(storeNetworks, networkId) && !isLoading
        && outcome == LoadOutcome(Falsy(networkId), None)
    {
      isLoading := true;
      var navigated := Falsy(networkId);
      var found := FindNetwork(storeNetworks, networkId);
      if found.None? {
        return LoadOutcome(true, Some("Network " + IdText(networkId) + " not found"));
      }
      network := found;
      isLoading := false;
      outcome := LoadOutcome(navigated, None);
    }
  }
}
