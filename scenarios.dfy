/**
 * Two submits of the egress modal, driven through its handlers from a
 * freshly opened session, as a caller sees them through the contracts.
 */
module Scenarios {
  import opened Entities
  import opened AddEgress

  /** Host H1 chosen, NAT left on, one private range: the request carries "yes". */
  method SubmitPrivateRange(isValidIpCidr: string -> bool)
    requires isValidIpCidr("10.0.0.0/8")
  {
    var modal := new AddEgressModal("net1");
    var h1 := ExtendedNode("H1", "net1", Some("h1"), Some("10.1.0.1"), "");
    modal.SelectHost(h1);
    modal.EditRanges(["10.0.0.0/8"]);
    PrivateRangeAccepted(isValidIpCidr);
    var outcome := modal.CreateEgress(isValidIpCidr, "0.0.0.0/0", "::/0", Returned(()));
    assert outcome == Created(EgressRequest("H1", "net1", EgressPayload(Some("H1"), Some(["10.0.0.0/8"]), "yes")));
    assert modal.selectedEgress == None && !modal.isSubmitting;
  }

  /** The whole IPv4 internet as a range: nothing is sent and the session keeps its choice. */
  method SubmitInternetRange(isValidIpCidr: string -> bool, call: Call<()>)
    requires isValidIpCidr("0.0.0.0/0")
  {
    var modal := new AddEgressModal("net1");
    var h1 := ExtendedNode("H1", "net1", Some("h1"), Some("10.1.0.1"), "");
    modal.SelectHost(h1);
    modal.EditRanges(["0.0.0.0/0"]);
    assert "" + "0.0.0.0/0" + "" == "0.0.0.0/0";
    ReservedRangeRejected("", "0.0.0.0/0", "", isValidIpCidr, "0.0.0.0/0", "::/0");
    var outcome := modal.CreateEgress(isValidIpCidr, "0.0.0.0/0", "::/0", call);
    assert outcome == ValidationFailed;
    assert modal.selectedEgress == Some(h1) && modal.form.ranges == Some(["0.0.0.0/0"]);
  }
}
