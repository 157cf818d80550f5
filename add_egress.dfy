/**
 * The "Create an Egress" modal: the host picker and its search, the
 * connectivity badge, the validators of the external ranges, the request
 * it sends and the session state its handlers update.
 */
module AddEgress {
  import Seqs
  import Text
  import opened Entities

  // ---------------------------------------------------------------------
  // Connectivity badge
  // ---------------------------------------------------------------------

  /** A status badge: the antd badge status and its text. */
  datatype Badge = Badge(status: string, text: string)

  /**
   * The health column: the node's connectivity status, as computed by a
   * helper outside this model, mapped to a badge. The mapping is total:
   * each of the three known statuses has its own badge and every other
   * status reads "Unknown".
   */
  function NodeConnectivity(status: string): (b: Badge)
    ensures b in {Badge("error", "Error"), Badge("warning", "Unstable"), Badge("success", "Healthy"), Badge("processing", "Unknown")}
    ensures b.text == "Error" <==> status == "error"
    ensures b.text == "Unstable" <==> status == "warning"
    ensures b.text == "Healthy" <==> status == "healthy"
    ensures b.text == "Unknown" <==> status !in {"error", "warning", "healthy"}
  {
    if status == "error" then Badge("error", "Error")
    else if status == "warning" then Badge("warning", "Unstable")
    else if status == "healthy" then Badge("success", "Healthy")
    else Badge("processing", "Unknown")
  }

  // ---------------------------------------------------------------------
  // Host picker
  // ---------------------------------------------------------------------

  /**
   * The hosts offered: the store's nodes of this network, in order, each
   * decorated by `extend`, which stands for the host-details decoration.
   */
  function EgressNetworkHosts(nodes: seq<Node>, networkId: string, extend: Node -> ExtendedNode): (r: seq<ExtendedNode>)
    ensures |r| == |OfNetwork(nodes, Some(networkId))|
    ensures forall i :: 0 <= i < |r| ==> r[i] == extend(OfNetwork(nodes, Some(networkId))[i])
    ensures forall h :: h in r <==> exists n :: n in nodes && n.network == networkId && h == extend(n)
  {
    Seqs.Map(OfNetwork(nodes, Some(networkId)), extend)
  }

  /** `text?.toLowerCase().includes(search.toLowerCase())`: an absent text never matches. */
  predicate FieldMatches(text: Option<string>, search: string)
  {
    text.Some? && Text.Includes(Text.Lower(text.value), Text.Lower(search))
  }

  /** The host search: the name matches, or else the address matches. */
  predicate HostMatches(h: ExtendedNode, search: string)
  {
    FieldMatches(h.name, search) || FieldMatches(h.address, search)
  }

  function SearchFilter(search: string): ExtendedNode -> bool
  {
    (h: ExtendedNode) => HostMatches(h, search)
  }

  /** The picker's table: the offered hosts that match the search, in order. */
  function FilteredNetworkHosts(hosts: seq<ExtendedNode>, search: string): (r: seq<ExtendedNode>)
    ensures forall h :: h in r <==> h in hosts && HostMatches(h, search)
    ensures forall h :: multiset(r)[h] == if HostMatches(h, search) then multiset(hosts)[h] else 0
    ensures Seqs.IsSubseq(r, hosts)
  {
    Seqs.Filter(hosts, SearchFilter(search))
  }

  /**
   * With an empty search the table shows exactly the hosts that have a name
   * or an address; a host with neither is never shown.
   */
  lemma EmptySearchKeepsNamedOrAddressed(hosts: seq<ExtendedNode>)
    ensures forall h :: h in FilteredNetworkHosts(hosts, "") <==> h in hosts && (h.name.Some? || h.address.Some?)
  {
    forall h: ExtendedNode
      ensures HostMatches(h, "") <==> h.name.Some? || h.address.Some?
    {
      if h.name.Some? {
        Text.IncludesEmpty(Text.Lower(h.name.value));
      }
      if h.address.Some? {
        Text.IncludesEmpty(Text.Lower(h.address.value));
      }
    }
  }

  // ---------------------------------------------------------------------
  // Validators
  // ---------------------------------------------------------------------

  const InvalidCidrMessage := "Invalid CIDR"
  const InternetGatewayMessage := "Visit the Remote Access tab to create an internet gateway"
  const NoRangesMessage := "Enter at least one address range"

  /** A validator's answer: the value passes, or it is rejected with a message. */
  datatype Verdict = Accepted | Rejected(message: string)

  /**
   * One external range. `isValidIpCidr` is the CIDR syntax check, which is
   * not part of this model; the two internet-range literals are parameters.
   * The syntax check comes first; a well-formed range that contains either
   * literal anywhere is sent to the internet-gateway feature instead.
   */
  function ValidateRange(value: string, isValidIpCidr: string -> bool, internetRangeIpv4: string, internetRangeIpv6: string): (v: Verdict)
    ensures v.Accepted? <==>
      isValidIpCidr(value) && !Text.Includes(value, internetRangeIpv4) && !Text.Includes(value, internetRangeIpv6)
    ensures !isValidIpCidr(value) ==> v == Rejected(InvalidCidrMessage)
    ensures isValidIpCidr(value) && v.Rejected? ==> v == Rejected(InternetGatewayMessage)
  {
    if !isValidIpCidr(value) then Rejected(InvalidCidrMessage)
    else if Text.Includes(value, internetRangeIpv4) || Text.Includes(value, internetRangeIpv6) then
      Rejected(InternetGatewayMessage)
    else Accepted
  }

  /**
   * A well-formed range that holds a reserved internet range anywhere in its
   * text, including the literal itself, is rejected with the gateway message.
   */
  lemma ReservedRangeRejected(
    pre: string, reserved: string, post: string,
    isValidIpCidr: string -> bool, internetRangeIpv4: string, internetRangeIpv6: string)
    requires reserved == internetRangeIpv4 || reserved == internetRangeIpv6
    requires isValidIpCidr(pre + reserved + post)
    ensures ValidateRange(pre + reserved + post, isValidIpCidr, internetRangeIpv4, internetRangeIpv6)
      == Rejected(InternetGatewayMessage)
  {
    Text.IncludesSpliced(pre, reserved, post);
  }

  /**
   * With the usual literals, an ordinary private range that the syntax check
   * accepts passes: `10.0.0.0/8` holds neither `0.0.0.0/0` nor `::/0`.
   */
  lemma PrivateRangeAccepted(isValidIpCidr: string -> bool)
    requires isValidIpCidr("10.0.0.0/8")
    ensures ValidateRange("10.0.0.0/8", isValidIpCidr, "0.0.0.0/0", "::/0") == Accepted
  {
    var s, v4, v6 := "10.0.0.0/8", "0.0.0.0/0", "::/0";
    forall i | 0 <= i && i + |v4| <= |s|
      ensures !Text.OccursAt(s, v4, i)
    {
      if i == 0 {
        assert s[i..i + |v4|][0] != v4[0];
      } else {
        assert s[i..i + |v4|][8] != v4[8];
      }
    }
    forall i | 0 <= i && i + |v6| <= |s|
      ensures !Text.OccursAt(s, v6, i)
    {
      assert s[i..i + |v6|][0] != v6[0];
    }
  }

  /** The range list: it must be present and hold at least one entry. */
  function ValidateRangeList(ranges: Option<seq<string>>): (v: Verdict)
    ensures v.Accepted? <==> ranges.Some? && |ranges.value| >= 1
    ensures v.Rejected? ==> v.message == NoRangesMessage
  {
    if ranges.None? || |ranges.value| < 1 then Rejected(NoRangesMessage) else Accepted
  }

  // ---------------------------------------------------------------------
  // Form and request
  // ---------------------------------------------------------------------

  /** The form's fields: the chosen node's id, the NAT switch and the ranges. */
  datatype EgressForm = EgressForm(nodeId: Option<string>, natEnabled: bool, ranges: Option<seq<string>>)

  /** The form as first shown and after a reset: no node, NAT on, one empty range. */
  function InitialForm(): (f: EgressForm)
    ensures f.nodeId.None? && f.natEnabled && f.ranges == Some([""])
  {
    EgressForm(None, true, Some([""]))
  }

  /** The required host field: absent and empty ids are both missing. */
  predicate NodeIdGiven(nodeId: Option<string>)
  {
    nodeId.Some? && nodeId.value != ""
  }

  /**
   * `validateFields` succeeds: a host is chosen, the list rule passes and
   * every range passes its rule.
   */
  predicate FormValidates(f: EgressForm, isValidIpCidr: string -> bool, internetRangeIpv4: string, internetRangeIpv6: string)
  {
    && NodeIdGiven(f.nodeId)
    && ValidateRangeList(f.ranges).Accepted?
    && forall r :: r in f.ranges.value ==> ValidateRange(r, isValidIpCidr, internetRangeIpv4, internetRangeIpv6).Accepted?
  }

  /**
   * Validation in the field's own terms: it passes exactly when the host id
   * is present and non-empty, the range list is present with at least one
   * entry, and every entry is well-formed CIDR holding neither internet
   * range. Any missing piece (no host, `''` as host, no list, an empty list,
   * one bad entry) blocks the submit.
   */
  lemma FormValidatesIff(f: EgressForm, isValidIpCidr: string -> bool, internetRangeIpv4: string, internetRangeIpv6: string)
    ensures FormValidates(f, isValidIpCidr, internetRangeIpv4, internetRangeIpv6) <==>
      && f.nodeId.Some? && f.nodeId.value != ""
      && f.ranges.Some? && |f.ranges.value| >= 1
      && forall r :: r in f.ranges.value ==>
           isValidIpCidr(r) && !Text.Includes(r, internetRangeIpv4) && !Text.Includes(r, internetRangeIpv6)
  {
  }

  /** What is sent: the form's fields with the NAT switch as the string "yes" or "no". */
  datatype EgressPayload = EgressPayload(nodeId: Option<string>, ranges: Option<seq<string>>, natEnabled: string)

  /** The inverse of `ToPayload`, used to state that nothing but the NAT encoding changes. */
  function FromPayload(p: EgressPayload): EgressForm
  {
    EgressForm(p.nodeId, p.natEnabled == "yes", p.ranges)
  }

  /**
   * The payload built from the form: the NAT flag becomes "yes" or "no" and
   * nothing is lost, so reading the payload back gives the form again.
   */
  function ToPayload(f: EgressForm): (p: EgressPayload)
    ensures p.natEnabled == "yes" || p.natEnabled == "no"
    ensures FromPayload(p) == f
  {
    EgressPayload(f.nodeId, f.ranges, if f.natEnabled then "yes" else "no")
  }

  /** A create request: the chosen host's id, the network and the payload. */
  datatype EgressRequest = EgressRequest(hostId: string, networkId: string, payload: EgressPayload)

  /** How a submit ended. */
  datatype CreateOutcome =
    | ValidationFailed
    | NoHostSelected
    | Created(request: EgressRequest)
    | CreateFailed(request: EgressRequest, notice: Option<string>)

  // ---------------------------------------------------------------------
  // Session state
  // ---------------------------------------------------------------------

  /**
   * The host field and the selected host move together: a selected host's
   * id is the field's value, and with no host selected the field is empty.
   */
  predicate SelectionInSync(nodeId: Option<string>, selected: Option<ExtendedNode>)
  {
    match selected
    case Some(h) => nodeId == Some(h.id)
    case None => !NodeIdGiven(nodeId)
  }

  /**
   * While the field and the selection agree, a form that validates always
   * has a host selected, so the submit guard on the selection never fires.
   */
  lemma ValidatedFormHasSelection(
    f: EgressForm, selected: Option<ExtendedNode>,
    isValidIpCidr: string -> bool, internetRangeIpv4: string, internetRangeIpv6: string)
    requires SelectionInSync(f.nodeId, selected)
    requires FormValidates(f, isValidIpCidr, internetRangeIpv4, internetRangeIpv6)
    ensures selected.Some? && f.nodeId == Some(selected.value.id)
  {
  }

  /** The modal's state fields and the handlers that update them. */
  class AddEgressModal {
    const networkId: string
    var isSubmitting: bool
    var egressSearch: string
    var selectedEgress: Option<ExtendedNode>
    var form: EgressForm

    ghost predicate Valid()
      reads this
    {
      SelectionInSync(form.nodeId, selectedEgress)
    }

    /** The modal as first opened. */
    constructor (networkId: string)
      ensures Valid()
      ensures this.networkId == networkId
      ensures !isSubmitting && egressSearch == "" && selectedEgress == None && form == InitialForm()
    {
      this.networkId := networkId;
      isSubmitting := false;
      egressSearch := "";
      selectedEgress := None;
      form := InitialForm();
    }

    /**
     * The picker's table for the store's current nodes: with the search box
     * empty, every decorated node of this network that has a name or an
     * address.
     */
    function PickerRows(nodes: seq<Node>, extend: Node -> ExtendedNode): (r: seq<ExtendedNode>)
      reads this
      ensures egressSearch == "" ==>
        forall h :: h in r <==> h in EgressNetworkHosts(nodes, networkId, extend) && (h.name.Some? || h.address.Some?)
    {
      EmptySearchKeepsNamedOrAddressed(EgressNetworkHosts(nodes, networkId, extend));
      FilteredNetworkHosts(EgressNetworkHosts(nodes, networkId, extend), egressSearch)
    }

    /** Typing in the host search box. */
    method SetSearch(text: string)
      modifies this`egressSearch
      ensures egressSearch == text
    {
      egressSearch := text;
    }

    /** Clicking a row of the picker: the host replaces any earlier choice. */
    method SelectHost(node: ExtendedNode)
      modifies this`form, this`selectedEgress
      ensures Valid()
      ensures form == old(form).(nodeId := Some(node.id))
      ensures selectedEgress == Some(node)
    {
      form := form.(nodeId := Some(node.id));
      selectedEgress := Some(node);
    }

    /** The clear button next to the chosen host. */
    method ClearSelection()
      modifies this`form, this`selectedEgress
      ensures Valid()
      ensures form == old(form).(nodeId := Some(""))
      ensures selectedEgress == None
    {
      form := form.(nodeId := Some(""));
      selectedEgress := None;
    }

    /** Flipping the NAT switch. */
    method SetNatEnabled(enabled: bool)
      modifies this`form
      ensures old(Valid()) ==> Valid()
      ensures form == old(form).(natEnabled := enabled)
    {
      form := form.(natEnabled := enabled);
    }

    /** Editing the range list (typing, adding or removing entries). */
    method EditRanges(ranges: seq<string>)
      modifies this`form
      ensures old(Valid()) ==> Valid()
      ensures form == old(form).(ranges := Some(ranges))
    {
      form := form.(ranges := Some(ranges));
    }

    /** Back to a fresh session; run after a successful create and on cancel. */
    method ResetModal()
      modifies this`form, this`egressSearch, this`selectedEgress
      ensures Valid()
      ensures form == InitialForm() && egressSearch == "" && selectedEgress == None
    {
      form := InitialForm();
      egressSearch := "";
      selectedEgress := None;
    }

    /**
     * Submitting, given the CIDR check, the two internet-range literals and
     * the outcome of the create call. A form that does not validate, or a
     * session without a selected host, sends nothing; a failed call leaves
     * the session as it was; a successful one resets it. Whatever happens,
     * the submitting flag is down at the end.
     */
    method CreateEgress(
      isValidIpCidr: string -> bool, internetRangeIpv4: string, internetRangeIpv6: string, call: Call<()>)
      returns (outcome: CreateOutcome)
      modifies this
      ensures !isSubmitting
      ensures old(Valid()) ==> Valid()
      ensures !FormValidates(old(form), isValidIpCidr, internetRangeIpv4, internetRangeIpv6) ==>
        outcome == ValidationFailed
      ensures FormValidates(old(form), isValidIpCidr, internetRangeIpv4, internetRangeIpv6) && old(selectedEgress).None? ==>
        outcome == NoHostSelected
      ensures FormValidates(old(form), isValidIpCidr, internetRangeIpv4, internetRangeIpv6) && old(selectedEgress).Some? ==>
        var request := EgressRequest(old(selectedEgress).value.id, networkId, ToPayload(old(form)));
        outcome == (if call.Returned? then Created(request)
                    else CreateFailed(request, if call.isAxiosError then Some("Failed to egress gateway") else None))
      ensures outcome.Created? ==> form == InitialForm() && egressSearch == "" && selectedEgress == None
      ensures !outcome.Created? ==>
        form == old(form) && egressSearch == old(egressSearch) && selectedEgress == old(selectedEgress)
    {
      if !FormValidates(form, isValidIpCidr, internetRangeIpv4, internetRangeIpv6) {
        isSubmitting := false;
        return ValidationFailed;
      }
      isSubmitting := true;
      if selectedEgress.None? {
        isSubmitting := false;
        return NoHostSelected;
      }
      var request := EgressRequest(selectedEgress.value.id, networkId, ToPayload(form));
      if call.Returned? {
        ResetModal();
        outcome := Created(request);
      } else {
        outcome := CreateFailed(request, if call.isAxiosError then Some("Failed to egress gateway") else None);
      }
      isSubmitting := false;
    }
  }

  /**
   * A list left without ranges, or one holding an entry the range rule
   * rejects, never gets past validation: nothing is sent.
   */
  lemma BadRangesSendNothing(
    f: EgressForm, isValidIpCidr: string -> bool, internetRangeIpv4: string, internetRangeIpv6: string)
    requires f.ranges.None? || f.ranges == Some([])
      || (f.ranges.Some? && exists r :: (r in f.ranges.value
            && ValidateRange(r, isValidIpCidr, internetRangeIpv4, internetRangeIpv6).Rejected?))
    ensures !FormValidates(f, isValidIpCidr, internetRangeIpv4, internetRangeIpv6)
  {
  }
}
