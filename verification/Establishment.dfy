/** The establishment echo and its check: crates/bitty-ai-control/src/manifest.rs:426-549. */
module Establishment {
  import opened Bytes
  import opened Results

  /** Every non-secret launch value, as the manifest fixes it and the Core echoes it. */
  datatype Echo = Echo(
    bootstrapFormatVersion: nat,
    controlProtocolVersion: nat,
    coreInstanceNonce: seq<Byte>,
    launchNonce: seq<Byte>,
    componentName: seq<Byte>,
    descriptorVersion: seq<Byte>,
    executableName: seq<Byte>,
    executableSha256: seq<Byte>,
    componentProtocolVersion: nat,
    controlChannelNonce: seq<Byte>,
    dataChannelNonce: seq<Byte>,
    delegationPurpose: seq<Byte>,
    controlProfile: seq<Byte>,
    keyMaterialProfile: nat,
    keyType: nat,
    coreLeafDigest: seq<Byte>,
    helperLeafDigest: seq<Byte>)

  /** The first field of the echo that differs from the launch, if any. */
  function Mismatch(expected: Echo, echo: Echo): (field: Option<string>)
    ensures field.None? <==> echo == expected
  {
    if echo.bootstrapFormatVersion != expected.bootstrapFormatVersion then Some("bootstrap_format_version")
    else if echo.controlProtocolVersion != expected.controlProtocolVersion then Some("control_protocol_version")
    else if echo.coreInstanceNonce != expected.coreInstanceNonce then Some("core_instance_nonce")
    else if echo.launchNonce != expected.launchNonce then Some("launch_nonce")
    else if echo.componentName != expected.componentName then Some("component_name")
    else if echo.descriptorVersion != expected.descriptorVersion then Some("descriptor_version")
    else if echo.executableName != expected.executableName then Some("executable_name")
    else if echo.executableSha256 != expected.executableSha256 then Some("executable_sha256")
    else if echo.componentProtocolVersion != expected.componentProtocolVersion then Some("component_protocol_version")
    else if echo.controlChannelNonce != expected.controlChannelNonce then Some("control_channel_nonce")
    else if echo.dataChannelNonce != expected.dataChannelNonce then Some("data_channel_nonce")
    else if echo.delegationPurpose != expected.delegationPurpose then Some("delegation_purpose")
    else if echo.controlProfile != expected.controlProfile then Some("control_profile")
    else if echo.keyMaterialProfile != expected.keyMaterialProfile then Some("key_material_profile")
    else if echo.keyType != expected.keyType then Some("key_type")
    else if echo.coreLeafDigest != expected.coreLeafDigest then Some("core_leaf_digest")
    else if echo.helperLeafDigest != expected.helperLeafDigest then Some("helper_leaf_digest")
    else None
  }

  /** The fields in the order they are compared, with whether each differs. */
  function Differences(expected: Echo, echo: Echo): seq<(string, bool)> {
    [ ("bootstrap_format_version", echo.bootstrapFormatVersion != expected.bootstrapFormatVersion),
      ("control_protocol_version", echo.controlProtocolVersion != expected.controlProtocolVersion),
      ("core_instance_nonce", echo.coreInstanceNonce != expected.coreInstanceNonce),
      ("launch_nonce", echo.launchNonce != expected.launchNonce),
      ("component_name", echo.componentName != expected.componentName),
      ("descriptor_version", echo.descriptorVersion != expected.descriptorVersion),
      ("executable_name", echo.executableName != expected.executableName),
      ("executable_sha256", echo.executableSha256 != expected.executableSha256),
      ("component_protocol_version", echo.componentProtocolVersion != expected.componentProtocolVersion),
      ("control_channel_nonce", echo.controlChannelNonce != expected.controlChannelNonce),
      ("data_channel_nonce", echo.dataChannelNonce != expected.dataChannelNonce),
      ("delegation_purpose", echo.delegationPurpose != expected.delegationPurpose),
      ("control_profile", echo.controlProfile != expected.controlProfile),
      ("key_material_profile", echo.keyMaterialProfile != expected.keyMaterialProfile),
      ("key_type", echo.keyType != expected.keyType),
      ("core_leaf_digest", echo.coreLeafDigest != expected.coreLeafDigest),
      ("helper_leaf_digest", echo.helperLeafDigest != expected.helperLeafDigest) ]
  }

  /** The field named is the first that differs. */
  lemma {:induction false} MismatchIsFirst(expected: Echo, echo: Echo, k: nat)
    requires k < 17
    requires Differences(expected, echo)[k].1 && forall j :: 0 <= j < k ==> !Differences(expected, echo)[j].1
    ensures Mismatch(expected, echo) == Some(Differences(expected, echo)[k].0)
  {
    var d := Differences(expected, echo);
    assert (k > 0 ==> !d[0].1) && (k > 1 ==> !d[1].1) && (k > 2 ==> !d[2].1) && (k > 3 ==> !d[3].1) && (k > 4 ==> !d[4].1) && (k > 5 ==> !d[5].1);
    assert (k > 6 ==> !d[6].1) && (k > 7 ==> !d[7].1) && (k > 8 ==> !d[8].1) && (k > 9 ==> !d[9].1) && (k > 10 ==> !d[10].1) && (k > 11 ==> !d[11].1);
    assert (k > 12 ==> !d[12].1) && (k > 13 ==> !d[13].1) && (k > 14 ==> !d[14].1) && (k > 15 ==> !d[15].1);
  }
}
