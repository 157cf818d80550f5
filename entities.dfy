/**
 * The records the two views work on, as far as the modelled logic reads
 * them, and the outcome of a call to the remote API.
 */
module Entities {
  import Seqs

  datatype Option<+T> = None | Some(value: T)

  /** A network, identified by its `netid`. */
  datatype Network = Network(netid: string, addressrange: string, addressrange6: string, defaultacl: string)

  /** A host's membership in a network. */
  datatype Node = Node(
    id: string,
    hostid: string,
    network: string,
    address: string,
    address6: string,
    isingressgateway: bool)

  /**
   * A node decorated with the details of its host. The decoration is made
   * by a helper outside this model, so `name` and `address` may be absent.
   */
  datatype ExtendedNode = ExtendedNode(
    id: string,
    network: string,
    name: Option<string>,
    address: Option<string>,
    endpointip: string)

  /** A remote-access client. */
  datatype ExternalClient = ExternalClient(clientid: string, network: string, enabled: bool)

  /** A DNS entry, scoped to a network. */
  datatype Dns = Dns(name: string, network: string, address: string)

  /**
   * What an awaited API call did: it returned a value, or it threw. Only
   * errors raised by the HTTP client (`AxiosError`) are reported to the user.
   */
  datatype Call<+T> = Returned(value: T) | Threw(isAxiosError: bool)

  /** `node.network === networkId`, where the id may be undefined. */
  predicate InNetwork(network: string, networkId: Option<string>)
  {
    networkId == Some(network)
  }

  /** The store's nodes that belong to the network, in store order. */
  function OfNetwork(nodes: seq<Node>, networkId: Option<string>): (r: seq<Node>)
    ensures forall n :: n in r <==> n in nodes && InNetwork(n.network, networkId)
    ensures forall n :: multiset(r)[n] == if InNetwork(n.network, networkId) then multiset(nodes)[n] else 0
    ensures Seqs.IsSubseq(r, nodes)
    ensures networkId.None? ==> r == []
  {
    Seqs.Filter(nodes, (n: Node) => InNetwork(n.network, networkId))
  }
}
