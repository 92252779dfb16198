/**
 * The pieces of the two WebAuthn ceremonies (sections 7.1 and 7.2 of W3C Web Authentication
 * Level 2) that AuthManager.py builds itself: credential descriptors read back from the `Cred`
 * table, and the ordered loop over the allowed origins. The library verifiers are an oracle:
 * for one origin they either accept, with a result, or raise.
 */
module WebAuthn {
  import opened Wrappers
  import opened Models
  import Base64Url
  import JsonList

  type byte = Base64Url.byte

  /** The members of py_webauthn's `AuthenticatorTransport`, looked up by member name. */
  datatype Transport = Usb | Nfc | Ble | Internal | Cable | Hybrid

  /** The enum value, as browsers report transports. */
  function TransportValue(t: Transport): string {
    match t
    case Usb => "usb"
    case Nfc => "nfc"
    case Ble => "ble"
    case Internal => "internal"
    case Cable => "cable"
    case Hybrid => "hybrid"
  }

  /** `str.upper()` on ASCII letters. */
  function Upper(s: string): (u: string)
    ensures |u| == |s|
    ensures forall i :: 0 <= i < |s| ==> u[i] == (if 'a' <= s[i] <= 'z' then (s[i] as int - 32) as char else s[i])
  {
    if s == [] then []
    else [if 'a' <= s[0] <= 'z' then (s[0] as int - 32) as char else s[0]] + Upper(s[1..])
  }

  /** The member's name in the enum. */
  function TransportName(t: Transport): string {
    match t
    case Usb => "USB"
    case Nfc => "NFC"
    case Ble => "BLE"
    case Internal => "INTERNAL"
    case Cable => "CABLE"
    case Hybrid => "HYBRID"
  }

  /** Each member is named by its value in upper case. */
  lemma TransportNameIsUpperValue(t: Transport)
    ensures Upper(TransportValue(t)) == TransportName(t)
  {
    var v := TransportValue(t);
    var u := Upper(v);
    assert |u| == |v|;
    match t
    case Usb => assert u == "USB";
    case Nfc => assert u == "NFC";
    case Ble => assert u == "BLE";
    case Internal => assert u == "INTERNAL";
    case Cable => assert u == "CABLE";
    case Hybrid => assert u == "HYBRID";
  }

  /** `AuthenticatorTransport[name]`: the member called `name`, or `KeyError(name)`. */
  function TransportNamed(name: string): (r: Outcome<Transport>)
    ensures r.Ok? ==> TransportName(r.value) == name
    ensures r.Raised? ==> r.error == KeyError(name) && forall t: Transport :: TransportName(t) != name
  {
    if name == "USB" then Ok(Usb)
    else if name == "NFC" then Ok(Nfc)
    else if name == "BLE" then Ok(Ble)
    else if name == "INTERNAL" then Ok(Internal)
    else if name == "CABLE" then Ok(Cable)
    else if name == "HYBRID" then Ok(Hybrid)
    else Raised(KeyError(name))
  }

  /** Every transport value, upper-cased, names its own member. */
  lemma TransportNamedValue(t: Transport)
    ensures TransportNamed(Upper(TransportValue(t))) == Ok(t)
  {
    TransportNameIsUpperValue(t);
  }

  /** One element of the list comprehension of AuthManager.py lines 98 and 194. */
  function TransportOf(name: string): Outcome<Transport> {
    TransportNamed(Upper(name))
  }

  /** The whole comprehension: the first unknown name raises. */
  function ParseTransports(names: seq<string>): Outcome<seq<Transport>> {
    MapOutcome(names, TransportOf)
  }

  function TransportValues(ts: seq<Transport>): (vs: seq<string>)
    ensures |vs| == |ts| && forall i :: 0 <= i < |ts| ==> vs[i] == TransportValue(ts[i])
  {
    if ts == [] then [] else [TransportValue(ts[0])] + TransportValues(ts[1..])
  }

  /** The transports a browser reports are read back as the same members. */
  lemma ParseTransportValues(ts: seq<Transport>)
    ensures ParseTransports(TransportValues(ts)) == Ok(ts)
  {
    var names := TransportValues(ts);
    forall i | 0 <= i < |ts| ensures TransportOf(names[i]) == Ok(ts[i]) {
      TransportNamedValue(ts[i]);
    }
    var r := ParseTransports(names);
    assert r.Ok? && r.value == ts;
  }

  /** A `PublicKeyCredentialDescriptor` of type "public-key". */
  datatype Descriptor = Descriptor(id: seq<byte>, transports: seq<Transport>)

  /**
   * One stored credential as a descriptor (AuthManager.py lines 98-103): its transports are
   * parsed first, then its id is decoded; either step may raise.
   */
  function DescriptorOf(c: Cred): Outcome<Descriptor> {
    match JsonList.Loads(c.transports)
    case None => Raised(JsonDecodeError)
    case Some(names) =>
      match ParseTransports(names)
      case Raised(e) => Raised(e)
      case Ok(ts) =>
        match Base64Url.ToBytes(c.id)
        case None => Raised(Base64Error)
        case Some(id) => Ok(Descriptor(id, ts))
  }

  /** A credential as registration stores it is read back as the descriptor it came from. */
  lemma DescriptorOfStored(c: Cred, rawId: seq<byte>, ts: seq<Transport>)
    requires c.id == Base64Url.ToBase64Url(rawId)
    requires c.transports == JsonList.Dumps(TransportValues(ts))
    ensures DescriptorOf(c) == Ok(Descriptor(rawId, ts))
  {
    JsonList.LoadsDumps(TransportValues(ts));
    ParseTransportValues(ts);
    Base64Url.RoundTrip(rawId);
  }

  /**
   * The descriptor list for `creds`, in their order: one descriptor per credential, or the error
   * of the first credential that cannot be read.
   */
  function Descriptors(creds: seq<Cred>): Outcome<seq<Descriptor>> {
    MapOutcome(creds, DescriptorOf)
  }

  /** The loops of AuthManager.py lines 97-103 and 193-199. */
  method BuildDescriptors(creds: seq<Cred>) returns (r: Outcome<seq<Descriptor>>)
    ensures r == Descriptors(creds)
  {
    var list: seq<Descriptor> := [];
    for i := 0 to |creds|
      invariant Descriptors(creds[..i]) == Ok(list)
    {
      var d := DescriptorOf(creds[i]);
      if d.Raised? {
        MapOutcomeFirstFailure(creds, DescriptorOf, i);
        return Raised(d.error);
      }
      assert creds[..i + 1][..i] == creds[..i];
      list := list + [d.value];
    }
    assert creds[..|creds|] == creds;
    return Ok(list);
  }

  /** What a library verifier does for one origin: accept with a result, or raise. */
  datatype Verdict<+V> = Accepted(result: V) | Failed

  /** The first origin the verifier accepts: its index and the result. */
  function FirstAccepted<O, V>(origins: seq<O>, attempt: O -> Verdict<V>): (r: Option<(nat, V)>)
    ensures r.Some? ==> (r.value.0 < |origins| && attempt(origins[r.value.0]) == Accepted(r.value.1) &&
      forall k :: 0 <= k < r.value.0 ==> attempt(origins[k]).Failed?)
    ensures r.None? <==> forall k :: 0 <= k < |origins| ==> attempt(origins[k]).Failed?
  {
    if origins == [] then None
    else
      assert forall k :: 1 <= k < |origins| ==> origins[k] == origins[1..][k - 1];
      match attempt(origins[0])
      case Accepted(v) => Some((0, v))
      case Failed =>
        match FirstAccepted(origins[1..], attempt)
        case None => None
        case Some((i, v)) => Some((i + 1, v))
  }

  /**
   * The loop of AuthManager.py lines 132-145 and 229-244: try each origin in order, log a failed
   * one and go on, stop at the first accepted one. `failed` holds the origins logged as failed.
   */
  method TryOrigins<O, V>(origins: seq<O>, attempt: O -> Verdict<V>) returns (res: Option<V>, failed: seq<O>)
    ensures FirstAccepted(origins, attempt).None? ==> res.None? && failed == origins
    ensures FirstAccepted(origins, attempt).Some? ==>
      res == Some(FirstAccepted(origins, attempt).value.1) &&
      failed == origins[..FirstAccepted(origins, attempt).value.0]
  {
    res, failed := None, [];
    var i := 0;
    while i < |origins|
      invariant 0 <= i <= |origins|
      invariant failed == origins[..i]
      invariant forall k :: 0 <= k < i ==> attempt(origins[k]).Failed?
    {
      var verdict := attempt(origins[i]);
      if verdict.Accepted? {
        res := Some(verdict.result);
        return;
      }
      failed := failed + [origins[i]];
      i := i + 1;
    }
  }
}
