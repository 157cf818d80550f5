# Network details page and egress modal: a Dafny model

This project models the logic inside two components of the netmaker web
dashboard. Everything else in those components is rendering.

- **Network details page** (`src/pages/networks/NetworkDetailsPage.tsx`).
  The page derives several lists from the store and from its own state:
  - the hosts tab: the network's nodes whose lower-cased address includes the lower-cased search;
  - the client gateways: the listed hosts flagged as ingress gateways;
  - the loaded clients and DNS entries: restricted to the network;
  - the DNS table: every entry, labelled `name.network`.

  The page state is the class `NetworkDetails.NetworkDetailsPage`, holding
  `network`, `isLoading`, `isEditing`, the two search texts, `dnses`,
  `isAddDnsModalOpen` and `clients`. Its handlers update that state after a
  service call succeeds or throws: delete a client, delete a DNS entry,
  append a created DNS entry, load clients, load DNS entries, and look up the
  network by `netid`.

  The DNS delete is modelled as written. Its filter callback names its own
  parameter `dns`, which shadows the deleted entry. The test
  `dns.name !== dns.name` therefore never holds, so a successful delete
  empties the whole list (`DnsesAfterDelete`, `ConfirmDeleteDns`).

- **Egress modal** (`src/components/modals/add-egress-modal/AddEgressModal.tsx`).
  The modal maps a connectivity status to a badge. It offers the network's
  hosts, filtered by name or address. It validates each external range (CIDR
  syntax first, then the two internet-range literals as substrings) and
  checks that the range list is non-empty. It builds the create request with
  the NAT flag sent as `"yes"`/`"no"`.

  The session state is the class `AddEgress.AddEgressModal`, holding
  `isSubmitting`, `egressSearch`, `selectedEgress` and the form. Its `Valid()`
  invariant says that the form's `nodeId` and `selectedEgress` move together.
  Every handler preserves it.

Modules:
- `Seqs`: order-preserving filter and map, and the subsequence relation.
- `Text`: lower-casing and `includes`.
- `Entities`: the records, and `Call<T>`, the outcome of an awaited API call (it returned, or it threw an HTTP-client error or another error).
- `NetworkDetails`: the page.
- `AddEgress`: the modal.
- `Scenarios`: two submits driven through the modal's handlers.

Collaborators the model cannot see become parameters:
- the CIDR syntax check `isValidIpCidr`;
- the reserved literals `INTERNET_RANGE_IPV4`/`INTERNET_RANGE_IPV6`;
- the host-details decoration `getExtendedNode`;
- the status string produced by `getNodeConnectivityStatus`;
- the result of every service call.

A notification is modelled as the message it shows.

Behaviour of the code that a reader might not expect, all modelled as written:
- An empty host search in the egress modal does not keep every host. A host with neither a name nor an address is dropped.
- The DNS search box filters nothing.
- Reserved ranges are detected by substring containment, not by equality with `0.0.0.0/0` or `::/0`.
- Removing entries can leave the range list empty; an empty list blocks only the submit (the inline error antd shows on change is not modelled).

## Model

| member | source | states |
|---|---|---|
| Seqs.Filter | src/pages/networks/NetworkDetailsPage.tsx:75 | `filter` keeps exactly the elements satisfying the predicate, each as often as in the input, as a subsequence of the input (order preserved) |
| Seqs.Map | src/pages/networks/NetworkDetailsPage.tsx:84 | `map` keeps length and order; an element is in the result iff it is the image of some input element |
| Text.Includes | src/pages/networks/NetworkDetailsPage.tsx:77 | the left-to-right scan of `includes` holds exactly when the search text occurs at some position |
| Text.Lower | src/pages/networks/NetworkDetailsPage.tsx:77 | `toLowerCase` keeps the length, turns each ASCII upper-case letter into its lower-case letter (code point + 32), leaves every other character as it is, and leaves no upper-case letter |
| Entities.OfNetwork | src/pages/networks/NetworkDetailsPage.tsx:75 | the nodes kept are exactly those whose `network` equals the id, in store order with multiplicity; an undefined id keeps none |
| NetworkDetails.NetworkHosts | src/pages/networks/NetworkDetailsPage.tsx:72-79 | a node is listed iff it is in the network and its lower-cased address includes the lower-cased search; with multiplicity; an order-preserving subsequence of the store's nodes |
| NetworkDetails.NetworkHostsEmptySearch | src/pages/networks/NetworkDetailsPage.tsx:72-79 | with an empty search every node of the network is listed, in store order |
| NetworkDetails.Gateways | src/pages/networks/NetworkDetailsPage.tsx:83 | exactly the listed hosts with `isingressgateway`, in listing order, each as often as listed |
| NetworkDetails.ClientGateways | src/pages/networks/NetworkDetailsPage.tsx:81-85 | one decorated entry per ingress host, in the same order; an entry is present iff it decorates some listed ingress host |
| NetworkDetails.ClientsOfNetwork | src/pages/networks/NetworkDetailsPage.tsx:688 | loaded clients are exactly those of the network, order and multiplicity preserved |
| NetworkDetails.DnsesOfNetwork | src/pages/networks/NetworkDetailsPage.tsx:704 | loaded DNS entries are exactly those of the network, order and multiplicity preserved |
| NetworkDetails.WithoutClient | src/pages/networks/NetworkDetailsPage.tsx:95 | every client with the deleted id is removed; all others are kept in order with multiplicity |
| NetworkDetails.DnsesAfterDelete | src/pages/networks/NetworkDetailsPage.tsx:272 | the shadowed filter test never holds, so the list after a delete is empty |
| NetworkDetails.FindNetwork | src/pages/networks/NetworkDetailsPage.tsx:742 | none iff no store network has the id; otherwise the first network whose `netid` is the id |
| NetworkDetails.DnsLabel | src/pages/networks/NetworkDetailsPage.tsx:490 | the label splits into the entry's name, a `.`, and its network |
| NetworkDetails.DnsTable | src/pages/networks/NetworkDetailsPage.tsx:485-533 | one row per DNS entry, in order, labelled `name.network`; the DNS search text does not affect the rows |
| NetworkDetails.NetworkDetailsPage.HostRows | src/pages/networks/NetworkDetailsPage.tsx:454 | the hosts table shows only the store's nodes of this network, and with the host search empty it shows exactly `OfNetwork` of the store, in order |
| NetworkDetails.NetworkDetailsPage.GatewayRows | src/pages/networks/NetworkDetailsPage.tsx:604 | every gateway row decorates an ingress node of this network, and with the host search empty every such node's decoration is a row |
| NetworkDetails.NetworkDetailsPage.DnsRows | src/pages/networks/NetworkDetailsPage.tsx:531 | the DNS table has one row per loaded entry, labelled `name.network`, and is the same whatever the DNS search text |
| NetworkDetails.NetworkDetailsPage.constructor | src/pages/networks/NetworkDetailsPage.tsx:59-70 | initial state: no network, not loading, not editing, empty searches and lists, add-DNS modal closed |
| NetworkDetails.NetworkDetailsPage.SetSearchHost | src/pages/networks/NetworkDetailsPage.tsx:407 | the host search becomes the typed text |
| NetworkDetails.NetworkDetailsPage.SetSearchDns | src/pages/networks/NetworkDetailsPage.tsx:475 | the DNS search becomes the typed text |
| NetworkDetails.NetworkDetailsPage.StartEditing | src/pages/networks/NetworkDetailsPage.tsx:844-848 | the Edit button sets `isEditing` |
| NetworkDetails.NetworkDetailsPage.OpenAddDnsModal | src/pages/networks/NetworkDetailsPage.tsx:479 | the Add DNS button opens the add-DNS modal |
| NetworkDetails.NetworkDetailsPage.CancelAddDnsModal | src/pages/networks/NetworkDetailsPage.tsx:871 | cancelling the add-DNS modal closes it |
| NetworkDetails.NetworkDetailsPage.ConfirmDeleteClient | src/pages/networks/NetworkDetailsPage.tsx:92-104 | on success the list becomes `WithoutClient` of the old list; on a throw it is unchanged; only HTTP-client errors are reported |
| NetworkDetails.NetworkDetailsPage.ConfirmDeleteDns | src/pages/networks/NetworkDetailsPage.tsx:269-281 | on success the DNS list is empty (as written); on a throw it is unchanged; only HTTP-client errors are reported |
| NetworkDetails.NetworkDetailsPage.OnCreateDns | src/pages/networks/NetworkDetailsPage.tsx:803-806 | the new entry is appended after the unchanged earlier entries and the add-DNS modal closes |
| NetworkDetails.NetworkDetailsPage.LoadClients | src/pages/networks/NetworkDetailsPage.tsx:684-698 | without an id nothing changes; on success the list becomes the network's clients; on a throw it is unchanged |
| NetworkDetails.NetworkDetailsPage.LoadDnses | src/pages/networks/NetworkDetailsPage.tsx:700-714 | without an id nothing changes; on success the list becomes the network's DNS entries; on a throw it is unchanged |
| NetworkDetails.NetworkDetailsPage.LoadNetwork | src/pages/networks/NetworkDetailsPage.tsx:731-757 | found: `network` is the first match and loading ends; not found: user told and sent away, `network` unchanged, loading flag left up; a missing id also navigates |
| AddEgress.NodeConnectivity | src/components/modals/add-egress-modal/AddEgressModal.tsx:61-66 | total map into four badges: `error`→Error, `warning`→Unstable, `healthy`→Healthy, any other status→Unknown, each iff |
| AddEgress.EgressNetworkHosts | src/components/modals/add-egress-modal/AddEgressModal.tsx:68-72 | the offered hosts are the decorated nodes of the network, one per node, in store order |
| AddEgress.FilteredNetworkHosts | src/components/modals/add-egress-modal/AddEgressModal.tsx:74-82 | a host is kept iff its lower-cased name or lower-cased address includes the lower-cased search; order and multiplicity preserved |
| AddEgress.EmptySearchKeepsNamedOrAddressed | src/components/modals/add-egress-modal/AddEgressModal.tsx:76-80 | with an empty search exactly the hosts with a name or an address are kept; a host with neither is dropped |
| AddEgress.ValidateRange | src/components/modals/add-egress-modal/AddEgressModal.tsx:282-290 | accepted iff the CIDR check passes and neither literal occurs in the value; a failing CIDR check gives "Invalid CIDR" first; otherwise the gateway message |
| AddEgress.ReservedRangeRejected | src/components/modals/add-egress-modal/AddEgressModal.tsx:286-288 | any CIDR-valid value containing a reserved literal anywhere is rejected with the gateway message |
| AddEgress.PrivateRangeAccepted | src/components/modals/add-egress-modal/AddEgressModal.tsx:283-290 | with literals `0.0.0.0/0` and `::/0`, a CIDR-valid `10.0.0.0/8` is accepted |
| AddEgress.ValidateRangeList | src/components/modals/add-egress-modal/AddEgressModal.tsx:258-262 | accepted iff the list is present and non-empty; otherwise "Enter at least one address range" |
| AddEgress.InitialForm | src/components/modals/add-egress-modal/AddEgressModal.tsx:158 | the form starts and resets with no node, NAT on (line 158), and the range list `['']` (the list's `initialValue`, line 255 of the same file) |
| AddEgress.ToPayload | src/components/modals/add-egress-modal/AddEgressModal.tsx:125-128 | NAT is sent as "yes" or "no", and the payload reads back to the same form (nothing else changes) |
| AddEgress.FormValidatesIff | src/components/modals/add-egress-modal/AddEgressModal.tsx:121-293 | `validateFields` (line 121) passes iff the required host id (lines 161-164) is present and non-empty, the range list (lines 256-293) is present with at least one entry, and every entry is well-formed CIDR containing neither internet range |
| AddEgress.ValidatedFormHasSelection | src/components/modals/add-egress-modal/AddEgressModal.tsx:121-124 | while field and selection agree, a form that validates has a selected host whose id is the field |
| AddEgress.BadRangesSendNothing | src/components/modals/add-egress-modal/AddEgressModal.tsx:253-293 | a missing or empty range list, or any rejected range, makes validation fail |
| AddEgress.AddEgressModal.PickerRows | src/components/modals/add-egress-modal/AddEgressModal.tsx:188 | with the search box empty, the picker lists exactly the decorated nodes of this network that have a name or an address |
| AddEgress.AddEgressModal.constructor | src/components/modals/add-egress-modal/AddEgressModal.tsx:53-57 | the session starts not submitting, with empty search, no selection and the initial form |
| AddEgress.AddEgressModal.SetSearch | src/components/modals/add-egress-modal/AddEgressModal.tsx:178 | the search becomes the typed text |
| AddEgress.AddEgressModal.SelectHost | src/components/modals/add-egress-modal/AddEgressModal.tsx:192-195 | `nodeId` and `selectedEgress` both become the clicked node, replacing any earlier choice; invariant holds |
| AddEgress.AddEgressModal.ClearSelection | src/components/modals/add-egress-modal/AddEgressModal.tsx:222-225 | `nodeId` becomes `''` and the selection is cleared; invariant holds |
| AddEgress.AddEgressModal.SetNatEnabled | src/components/modals/add-egress-modal/AddEgressModal.tsx:236-243 | the NAT switch changes only the NAT field |
| AddEgress.AddEgressModal.EditRanges | src/components/modals/add-egress-modal/AddEgressModal.tsx:253-326 | editing the range list changes only the ranges field |
| AddEgress.AddEgressModal.ResetModal | src/components/modals/add-egress-modal/AddEgressModal.tsx:113-117 | the form is back to its initial values, the search is `''`, and the selection is cleared |
| AddEgress.AddEgressModal.CreateEgress | src/components/modals/add-egress-modal/AddEgressModal.tsx:119-142 | the submit: invalid form or no selection means no request; otherwise the request goes to `selectedEgress.id` and the network with the payload; success resets; failure keeps selection, form and search; `isSubmitting` is false on every path |

## Left out

- Rendering: JSX, table columns, styling, tooltips and router navigation are not modelled. Navigation appears only as the `navigatedToNetworks` flag of `LoadNetwork`.
- Text.Lower: models `toLowerCase` on ASCII letters only. JavaScript's Unicode case mapping is not modelled.
- AddEgress.NodeConnectivity: takes one status, so the up to three calls of `getNodeConnectivityStatus` at AddEgressModal.tsx:62-64 are taken to return the same status. If that helper reads the clock, a status that changes between two comparisons can make the source show "Unknown" for a node whose status was never unknown; the model cannot show that.
- Service calls: their bodies are not visible. Each call becomes a `Call<T>` parameter: it returned (with its data), or it threw. The server message that `extractErrorMsg` adds to a notification is not modelled, only the notification's title.
- `getExtendedNode`, `getNodeConnectivityStatus`, `isValidIpCidr` and the `INTERNET_RANGE_*` constants are defined in files that are not part of this model. They are parameters, and nothing is assumed about them beyond being functions of their arguments.
- LoadNetwork: does not model `store.fetchNodes()`/`store.fetchHosts()`. It also does not model the asynchronous `loadDnses`/`loadAcls`/`loadClients` calls it fires after `setNetwork`. `LoadDnses` and `LoadClients` model those separately. The ACL list (`loadAcls`, `acls`) is not modelled, because nothing on the page reads it.
- The gateway delete (`confirmDeleteGateway`) only calls the service and re-fetches the store, so it updates no page state. The network edit (`onNetworkFormEdit`), the network delete (`onNetworkDelete`, `promptConfirmDelete`) and `convertUiNetworkToNetworkModel` are service and store calls as well. The client-details and add-client modal flags only open and close other components. None of these is modelled.
- `Modal.confirm`: only the confirmed path (`onOk`) of the delete dialogs is modelled.
- React machinery: memo and callback dependency lists, effect ordering, and races between concurrent loads or submits are not modelled. `isSubmitting` is raised while the create call is awaited; a sequential model can only state its value when `CreateEgress` ends.
- antd form internals: `validateFields` is modelled as the conjunction of the rules the form declares (host required, list rule, per-range rule), regardless of `validateTrigger`. `Form.List` add/remove bookkeeping becomes `EditRanges`. An entry added with `add()` starts undefined in the source; here it is a string.
- AddEgress.AddEgressModal.CreateEgress: the `onCreateEgress` callback and the success notification are covered only by the `Created` outcome. Cancelling the modal runs `ResetModal` and then the parent's `onCancel`, which is not part of this model.
- `isDropDownOpen` only chooses an arrow icon, so it is not modelled.
