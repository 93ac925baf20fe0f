// What boxlet configures for a sandbox, and the address boxproxy dials for it.
module NetworkSpecs {
  import opened Machine
  import opened Network

  // The text of an address field: empty, a dotted quad, or anything else.
  datatype AddressText = Unset | V4(ip: uint32) | Other(text: string) {
    function Parsed(): Option<uint32> {
      if V4? then Some(ip) else None
    }
  }

  datatype Config = Config(enabled: bool, hostAccess: Cidr, veth: Cidr,
                           guestIp: string, gatewayIp: string, guestMac: string) {
    predicate Valid() {
      hostAccess.Valid() && veth.Valid()
    }
  }

  datatype Fields = Fields(namespaceName: string, tapName: string, guestIp: string, gatewayIp: string,
                           hostAccessIp: AddressText, mac: string, slot: uint32)

  // The hashed namespace name; distinct sandboxes are taken to have distinct names.
  function NamespaceName(sandboxId: string): string {
    "nb-" + sandboxId
  }

  function SpecForSlot(cfg: Config, sandboxId: string, slot: uint32): Result<Option<Fields>>
    requires cfg.Valid()
  {
    if !cfg.enabled then Ok(None)
    else if slot == 0 then Err
    else
      var ip := IndexedIP(cfg.hostAccess, slot);
      if ip.Err? then Err
      else Ok(Some(Fields(NamespaceName(sandboxId), "tap0", cfg.guestIp, cfg.gatewayIp, V4(ip.value), cfg.guestMac, slot)))
  }

  function OrText(given: string, default: string): string {
    if given == "" then default else given
  }

  // What the caller asked for, with every empty field taken from the defaults.
  function Filled(given: Fields, defaults: Fields): Fields {
    Fields(OrText(given.namespaceName, defaults.namespaceName), OrText(given.tapName, defaults.tapName),
           OrText(given.guestIp, defaults.guestIp), OrText(given.gatewayIp, defaults.gatewayIp),
           if given.hostAccessIp.Unset? then defaults.hostAccessIp else given.hostAccessIp,
           OrText(given.mac, defaults.mac), if given.slot == 0 then defaults.slot else given.slot)
  }

  function Completed(cfg: Config, sandboxId: string, slot: uint32, given: Option<Fields>): Result<Option<Fields>>
    requires cfg.Valid()
  {
    var defaults := SpecForSlot(cfg, sandboxId, slot);
    if defaults.Err? || defaults.value.None? || given.None? then defaults
    else Ok(Some(Filled(given.value, defaults.value.value)))
  }

  class NetworkSpec {
    var namespaceName: string
    var tapName: string
    var guestIp: string
    var gatewayIp: string
    var hostAccessIp: AddressText
    var mac: string
    var slot: uint32

    function Value(): Fields
      reads this
    {
      Fields(namespaceName, tapName, guestIp, gatewayIp, hostAccessIp, mac, slot)
    }

    constructor (f: Fields)
      ensures Value() == f
    {
      namespaceName, tapName, guestIp, gatewayIp := f.namespaceName, f.tapName, f.guestIp, f.gatewayIp;
      hostAccessIp, mac, slot := f.hostAccessIp, f.mac, f.slot;
    }

    method FillEmpty(defaults: Fields)
      modifies this
      ensures Value() == Filled(old(Value()), defaults)
    {
      if namespaceName == "" {
        namespaceName := defaults.namespaceName;
      }
      if tapName == "" {
        tapName := defaults.tapName;
      }
      if guestIp == "" {
        guestIp := defaults.guestIp;
      }
      if gatewayIp == "" {
        gatewayIp := defaults.gatewayIp;
      }
      if hostAccessIp.Unset? {
        hostAccessIp := defaults.hostAccessIp;
      }
      if mac == "" {
        mac := defaults.mac;
      }
      if slot == 0 {
        slot := defaults.slot;
      }
    }
  }

  function ValueOf(spec: NetworkSpec?): Option<Fields>
    reads spec
  {
    if spec == null then None else Some(spec.Value())
  }

  // Each field is the caller's own where it is given, and otherwise the one that goes with
  // the sandbox, its slot and the configuration.
  ghost predicate Complements(done: Fields, given: Fields, cfg: Config, sandboxId: string, slot: uint32)
    requires cfg.Valid() && IndexedIP(cfg.hostAccess, slot).Ok?
  {
    && done.namespaceName == (if given.namespaceName != "" then given.namespaceName else NamespaceName(sandboxId))
    && done.tapName == (if given.tapName != "" then given.tapName else "tap0")
    && done.guestIp == (if given.guestIp != "" then given.guestIp else cfg.guestIp)
    && done.gatewayIp == (if given.gatewayIp != "" then given.gatewayIp else cfg.gatewayIp)
    && done.hostAccessIp == (if !given.hostAccessIp.Unset? then given.hostAccessIp
                             else V4(IndexedIP(cfg.hostAccess, slot).value))
    && done.mac == (if given.mac != "" then given.mac else cfg.guestMac)
    && done.slot == (if given.slot != 0 then given.slot else slot)
  }

  const NOTHING_GIVEN := Fields("", "", "", "", Unset, "", 0)

  lemma CompletedComplements(cfg: Config, sandboxId: string, slot: uint32, given: Option<Fields>)
    requires cfg.Valid()
    ensures var done := Completed(cfg, sandboxId, slot, given);
            && (done.Ok? <==> !cfg.enabled || (slot > 0 && IndexedIP(cfg.hostAccess, slot).Ok?))
            && (done.Ok? ==> (done.value.Some? <==> cfg.enabled))
            && (done.Ok? && cfg.enabled ==>
                  Complements(done.value.value, if given.Some? then given.value else NOTHING_GIVEN, cfg, sandboxId, slot))
  {
    hide IndexedIP, NamespaceName;
  }

  // Fills the caller's own object in place when there is one; null is Go's nil.
  method Complete(cfg: Config, sandboxId: string, slot: uint32, spec: NetworkSpec?) returns (ok: bool, r: NetworkSpec?)
    requires cfg.Valid()
    modifies spec
    ensures (if ok then Ok(ValueOf(r)) else Err) == Completed(cfg, sandboxId, slot, old(ValueOf(spec)))
    ensures ok && cfg.enabled && spec != null ==> r == spec
    ensures !ok || !cfg.enabled ==> ValueOf(spec) == old(ValueOf(spec))
    ensures ok <==> !cfg.enabled || (slot > 0 && IndexedIP(cfg.hostAccess, slot).Ok?)
    ensures r == null <==> !ok || !cfg.enabled
    ensures r != null ==>
              Complements(r.Value(), if spec == null then NOTHING_GIVEN else old(spec.Value()), cfg, sandboxId, slot)
  {
    CompletedComplements(cfg, sandboxId, slot, ValueOf(spec));
    hide SpecForSlot, IndexedIP, Complements, Filled;
    var defaults := SpecForSlot(cfg, sandboxId, slot);
    if defaults.Err? {
      return false, null;
    }
    if defaults.value.None? {
      return true, null;
    }
    if spec == null {
      r := new NetworkSpec(defaults.value.value);
      return true, r;
    }
    spec.FillEmpty(defaults.value.value);
    return true, spec;
  }

  // ---------- boxproxy ----------

  datatype Dial = NotFound | NoActiveSlot | BadAddress | Address(ip: uint32)

  // boxproxy's own copy of the address computation.
  function ProxyIndexedIP(c: Cidr, index: uint32): Option<uint32>
    requires c.Valid()
  {
    match c
    case Unparsable | Ipv6 => None
    case Ipv4(base, ones) =>
      PowersFit(c);
      var totalIPs: uint32 := if ones == 0 then 0 else Pow2(32 - ones);
      if 0 < index < totalIPs then Some((base + index) % TWO_32) else None
  }

  // recordSlot is None when the store has no such sandbox.
  function HostAccessIP(cfg: Config, recordSlot: Option<uint32>): Dial
    requires cfg.Valid()
  {
    if recordSlot.None? then NotFound
    else if recordSlot.value == 0 then NoActiveSlot
    else
      var ip := ProxyIndexedIP(cfg.hostAccess, recordSlot.value);
      if ip.None? then BadAddress else Address(ip.value)
  }

  // What boxproxy answers for every record there can be.
  lemma DialIff(cfg: Config, recordSlot: Option<uint32>)
    requires cfg.Valid()
    ensures var dial := HostAccessIP(cfg, recordSlot);
            && (dial == NotFound <==> recordSlot == None)
            && (dial == NoActiveSlot <==> recordSlot == Some(0))
            && (dial.Address? <==> recordSlot.Some? && recordSlot.value > 0 && IndexedIP(cfg.hostAccess, recordSlot.value).Ok?)
            && (dial.Address? ==> dial.ip == IndexedIP(cfg.hostAccess, recordSlot.value).value)
  {
    if recordSlot.Some? {
      CopiesAgree(cfg.hostAccess, recordSlot.value);
    }
    hide IndexedIP, ProxyIndexedIP;
  }

  // For a slot the allocator can hand out, boxproxy dials the address boxlet
  // configured exactly when the create request named no other address.
  lemma DialedIsConfiguredIff(cfg: Config, sandboxId: string, slot: uint32, given: Option<Fields>)
    requires cfg.Valid() && cfg.enabled && MaxSlots(cfg.hostAccess, cfg.veth).Ok?
    requires 1 <= slot <= MaxSlots(cfg.hostAccess, cfg.veth).value
    ensures var done, dial := Completed(cfg, sandboxId, slot, given), HostAccessIP(cfg, Some(slot));
            && done.Ok? && done.value.Some? && dial.Address? && dial.ip == cfg.hostAccess.base + slot
            && (done.value.value.hostAccessIp == V4(dial.ip) <==>
                given.None? || given.value.hostAccessIp.Unset? || given.value.hostAccessIp == V4(dial.ip))
  {
    AcceptedPrefixes(cfg.hostAccess, cfg.veth);
    SlotAddresses(cfg.hostAccess, cfg.veth, slot);
    CopiesAgree(cfg.hostAccess, slot);
    hide IndexedIP, ProxyIndexedIP, MaxSlots, VethAddrsForSlot, Inside, AlignedInside, Cidr.Size;
  }

  // Both copies of the computation give the same address or both refuse.
  lemma CopiesAgree(c: Cidr, index: uint32)
    requires c.Valid()
    ensures ProxyIndexedIP(c, index) == match IndexedIP(c, index) case Ok(ip) => Some(ip) case Err => None
  {
    if c.Ipv4? {
      PowersFit(c);
    }
    hide Pow2;
  }

  // A request that names another sandbox's address is obeyed, and boxproxy dials elsewhere.
  lemma ExplicitAddressIsNotDialed()
    ensures var cfg := Config(true, Ipv4(0, 24), Ipv4(0, 24), "g", "w", "m");
            var given := Fields("", "", "", "", V4(9), "", 0);
            && cfg.Valid() && MaxSlots(cfg.hostAccess, cfg.veth).Ok?
            && HostAccessIP(cfg, Some(5)) == Address(5)
            && Completed(cfg, "s", 5, Some(given)).Ok?
            && Completed(cfg, "s", 5, Some(given)).value.Some?
            && Completed(cfg, "s", 5, Some(given)).value.value.hostAccessIp == V4(9)
  {
    assert Pow2(8) == 256;
  }
}
