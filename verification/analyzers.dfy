/**
 `DeviceAnalyzer`: the three classifications of the NSO query rows. Each
 analysis folds its rows, one at a time and in order, into a nested dict
 `{'DEVICE': {device: {...}}}` (plus `'ISIS'` for the IS-IS analysis).
 A row here is one flattened select row (`Cdb.SelectRow`).
 */
module CdbAnalyzers {
  import opened Json
  import opened Text

  // ===========================================================================
  // Nested-dict helpers
  // ===========================================================================

  /** `d.setdefault(k, {})` used as a dict afterwards: an existing non-dict value would raise. */
  function SetDefault(fs: Fields, k: string): (r: Result<Fields>)
    ensures Get(fs, k).None? ==> r == Ok([])
    ensures r.Ok? && Get(fs, k).Some? ==> Get(fs, k) == Some(Obj(r.value))
    ensures r.Ok? ==> r.value == Sub(fs, k)
  {
    match Get<string, Json>(fs, k)
    case None => Ok([])
    case Some(Obj(c)) => Ok(c)
    case Some(_) => Err("AttributeError")
  }

  /** The dict stored under `k`, or `{}` when there is none. */
  function Sub(fs: Fields, k: string): Fields {
    match Get<string, Json>(fs, k)
    case Some(Obj(c)) => c
    case _ => []
  }

  lemma SubPut(fs: Fields, k: string, c: Fields, k': string)
    ensures Sub(Put(fs, k, Obj(c)), k') == if k' == k then c else Sub(fs, k')
  {
  }

  // ===========================================================================
  // Row fields
  // ===========================================================================

  type Row = Fields

  function Dev(item: Row): Json {
    GetOr(item, "device", Null)
  }

  /** The device a row is filed under: a truthy (string) `device`. */
  predicate DeviceRow(item: Row, d: string) {
    Truthy(Dev(item)) && Dev(item) == Str(d)
  }

  function PathOf(item: Row): Json {
    GetOr(item, "path", Str(""))
  }

  /** A loopback or system interface: its path contains `LoopBack` or `system`. */
  predicate Excluded(item: Row) {
    PyIn("LoopBack", PathOf(item)) == Ok(true) || PyIn("system", PathOf(item)) == Ok(true)
  }

  /** `'LoopBack' not in path and 'system' not in path`, with Python's short circuit and TypeError. */
  function IsExcluded(item: Row): (r: Result<bool>)
    ensures r.Ok? ==> (r.value <==> Excluded(item))
    ensures r.Ok? <==> PathOf(item).Str? || PathOf(item).Arr? || PathOf(item).Obj?
  {
    var loop :- PyIn("LoopBack", PathOf(item));
    if loop then Ok(true) else PyIn("system", PathOf(item))
  }

  // ===========================================================================
  // analyze_logical_interfaces
  // ===========================================================================

  /**
   `IPv4Interface(f"{address}/{mask}")` reduced to what the analysis keeps:
   the network and the address as strings, or None when the constructor
   raises. The address arithmetic of the ipaddress module is not modelled.
   */
  type Ipv4Interface = (Json, Json) -> Option<(string, string)>

  /** The `ATTACH` and `VLAN` values of a port descriptor such as `lag-3:100` or `1/1/1:0`. */
  function PortDescriptor(p: string): (r: (string, string))
    ensures var head := Before(p, ":");
      r.0 == if Contains(head, "lag-") then Before(After(head, "lag-"), "lag-") else head
    ensures r.1 == if Contains(p, ":") && Before(After(p, ":"), ":") != "0" then Before(After(p, ":"), ":") else ""
  {
    var parts := Split(p, ":");
    SplitBeforeAfter(p, ":");
    var attach :=
      if Contains(parts[0], "lag-") then
        SplitBeforeAfter(parts[0], "lag-");
        Split(parts[0], "lag-")[1]
      else parts[0];
    var vlan := if |parts| > 1 && parts[1] != "0" then parts[1] else "";
    (attach, vlan)
  }

  /** `if item.get('port'): ...`: sets ATTACH and VLAN from the descriptor; only a string has `split`. */
  function PortStep(intf: Fields, item: Row): (r: Result<Fields>)
    ensures r.Ok? && !Truthy(GetOr(item, "port", Null)) ==> r.value == intf
    ensures r.Ok? && Truthy(GetOr(item, "port", Null)) ==>
      GetOr(item, "port", Null).Str? &&
      Keys(r.value) == Keys(intf) + {"ATTACH", "VLAN"} &&
      Get(r.value, "ATTACH") == Some(Str(PortDescriptor(GetOr(item, "port", Null).s).0)) &&
      Get(r.value, "VLAN") == Some(Str(PortDescriptor(GetOr(item, "port", Null).s).1)) &&
      forall k | k != "ATTACH" && k != "VLAN" :: Get(r.value, k) == Get(intf, k)
  {
    var port := GetOr(item, "port", Null);
    if !Truthy(port) then Ok(intf)
    else if !port.Str? then Err("AttributeError")
    else
      var pd := PortDescriptor(port.s);
      Ok(StorePort(intf, Str(pd.0), Str(pd.1)))
  }

  /** The two stores of the port update, in order. */
  function StorePort(intf: Fields, attach: Json, vlan: Json): (r: Fields)
    ensures Keys(r) == Keys(intf) + {"ATTACH", "VLAN"}
    ensures Get(r, "ATTACH") == Some(attach) && Get(r, "VLAN") == Some(vlan)
    ensures forall k | k != "ATTACH" && k != "VLAN" :: Get(r, k) == Get(intf, k)
  {
    StoreTwo(intf, "ATTACH", attach, "VLAN", vlan)
  }

  /** `d[k1] = v1; d[k2] = v2` for two different keys. */
  function StoreTwo(fs: Fields, k1: string, v1: Json, k2: string, v2: Json): (r: Fields)
    requires k1 != k2
    ensures Keys(r) == Keys(fs) + {k1, k2}
    ensures Get(r, k1) == Some(v1) && Get(r, k2) == Some(v2)
    ensures forall k | k != k1 && k != k2 :: Get(r, k) == Get(fs, k)
  {
    var a := Put(fs, k1, v1);
    assert Get(a, k1) == Some(v1);
    Put(a, k2, v2)
  }

  predicate HasAddress(item: Row) {
    Truthy(GetOr(item, "address", Null)) && Truthy(GetOr(item, "mask", Null))
  }

  /** `if item.get('address') and item.get('mask'): interface.update(NETWORK, MASK, IP)`; the update of three keys is three stores in order. */
  function AddressStep(intf: Fields, item: Row, ipv4: Ipv4Interface): (r: Result<Fields>)
    ensures !HasAddress(item) ==> r == Ok(intf)
    ensures HasAddress(item) ==> (r.Ok? <==> ipv4(GetOr(item, "address", Null), GetOr(item, "mask", Null)).Some?)
    ensures r.Ok? && HasAddress(item) ==>
      var ni := ipv4(GetOr(item, "address", Null), GetOr(item, "mask", Null)).value;
      Keys(r.value) == Keys(intf) + {"NETWORK", "MASK", "IP"} &&
      Get(r.value, "NETWORK") == Some(Str(ni.0)) &&
      Get(r.value, "MASK") == Some(GetOr(item, "mask", Null)) &&
      Get(r.value, "IP") == Some(Str(ni.1)) &&
      forall k | k !in {"NETWORK", "MASK", "IP"} :: Get(r.value, k) == Get(intf, k)
  {
    if !HasAddress(item) then Ok(intf)
    else
      var mask := GetOr(item, "mask", Null);
      match ipv4(GetOr(item, "address", Null), mask)
      case None => Err("ValueError")
      case Some(ni) =>
        Ok(StoreAddress(intf, Str(ni.0), mask, Str(ni.1)))
  }

  /** The three stores of the address update, in order. */
  function StoreAddress(intf: Fields, network: Json, mask: Json, ip: Json): (r: Fields)
    ensures Keys(r) == Keys(intf) + {"NETWORK", "MASK", "IP"}
    ensures Get(r, "NETWORK") == Some(network) && Get(r, "MASK") == Some(mask) && Get(r, "IP") == Some(ip)
    ensures forall k | k !in {"NETWORK", "MASK", "IP"} :: Get(r, k) == Get(intf, k)
  {
    var b := StoreTwo(intf, "NETWORK", network, "MASK", mask);
    Put(b, "IP", ip)
  }

  /** The LOGICAL dict of device `d`. */
  function LogicalOf(devs: Fields, d: string): Fields {
    Sub(Sub(devs, d), "LOGICAL")
  }

  /** Interface `n` under LOGICAL of device `d`. */
  function Intf(devs: Fields, d: string, n: string): Fields {
    Sub(LogicalOf(devs, d), n)
  }

  /** A row that files interface `n` under LOGICAL of device `d`. */
  predicate LogicalRow(item: Row, d: string, n: string) {
    DeviceRow(item, d) && !Excluded(item) && NameOf(item) == Str(n)
  }

  /** Interface `n` of a LOGICAL dict. */
  function NameOf(item: Row): Json {
    GetOr(item, "name", Null)
  }

  /** The port and the address of a row stored in its interface dict. */
  function FillInterface(intf: Fields, item: Row, ipv4: Ipv4Interface): (r: Result<Fields>)
    ensures r.Ok? ==> ("IP" in Keys(r.value) <==> "IP" in Keys(intf) || HasAddress(item))
    ensures r.Ok? ==>
      var port := GetOr(item, "port", Null);
      Truthy(port) ==>
        port.Str? &&
        Get(r.value, "ATTACH") == Some(Str(PortDescriptor(port.s).0)) &&
        Get(r.value, "VLAN") == Some(Str(PortDescriptor(port.s).1))
    ensures r.Ok? && HasAddress(item) ==>
      var ni := ipv4(GetOr(item, "address", Null), GetOr(item, "mask", Null));
      ni.Some? &&
      Get(r.value, "NETWORK") == Some(Str(ni.value.0)) &&
      Get(r.value, "MASK") == Some(GetOr(item, "mask", Null)) &&
      Get(r.value, "IP") == Some(Str(ni.value.1))
  {
    var intf1 :- PortStep(intf, item);
    var r := AddressStep(intf1, item, ipv4);
    if r.Ok? then
      AddressKeepsPort(intf1, item, ipv4, r.value);
      r
    else
      r
  }

  /** The address update leaves ATTACH and VLAN alone and adds IP exactly when the row has an address. */
  lemma AddressKeepsPort(intf: Fields, item: Row, ipv4: Ipv4Interface, r: Fields)
    requires AddressStep(intf, item, ipv4) == Ok(r)
    ensures Get(r, "ATTACH") == Get(intf, "ATTACH") && Get(r, "VLAN") == Get(intf, "VLAN")
    ensures "IP" in Keys(r) <==> "IP" in Keys(intf) || HasAddress(item)
  {
    if HasAddress(item) {
      KeepsUnlisted(intf, r, "ATTACH");
      KeepsUnlisted(intf, r, "VLAN");
      assert "IP" in Keys(r);
    } else {
      assert r == intf;
    }
  }

  lemma KeepsUnlisted(intf: Fields, r: Fields, k: string)
    requires forall k | k !in {"NETWORK", "MASK", "IP"} :: Get(r, k) == Get(intf, k)
    requires k in {"ATTACH", "VLAN"}
    ensures Get(r, k) == Get(intf, k)
  {
  }

  /**
   The interface part of one row: `lg.setdefault(item['name'], {})`, then
   the port and the address; `lg` is the device's LOGICAL dict.
   */
  function InterfaceStep(lg: Fields, item: Row, ipv4: Ipv4Interface): (r: Result<Fields>)
    ensures r.Ok? ==> NameOf(item).Str?
    ensures r.Ok? ==> forall n :: n in Keys(r.value) <==> n in Keys(lg) || NameOf(item) == Str(n)
    ensures r.Ok? ==> forall n | Str(n) != NameOf(item) :: Sub(r.value, n) == Sub(lg, n)
    ensures r.Ok? && NameOf(item).Str? ==>
      var f := FillInterface(Sub(lg, NameOf(item).s), item, ipv4);
      f.Ok? && Sub(r.value, NameOf(item).s) == f.value
  {
    var nameJ :- Index(Obj(item), "name");
    var n :- KeyStr(nameJ);
    var intf :- SetDefault(lg, n);
    var intf' :- FillInterface(intf, item, ipv4);
    SubPutAll(lg, n, intf');
    Ok(Put(lg, n, Obj(intf')))
  }

  lemma SubPutAll(fs: Fields, k: string, c: Fields)
    ensures Sub(Put(fs, k, Obj(c)), k) == c
    ensures forall k' | k' != k :: Sub(Put(fs, k, Obj(c)), k') == Sub(fs, k')
  {
  }

  /** The device part of one row: skip a loopback or system interface, else file it under LOGICAL. */
  function DeviceStep(dd: Fields, item: Row, ipv4: Ipv4Interface): (r: Result<Fields>)
    ensures r.Ok? && Excluded(item) ==> r.value == dd
    ensures r.Ok? && !Excluded(item) ==>
      var s := InterfaceStep(Sub(dd, "LOGICAL"), item, ipv4);
      s.Ok? && Sub(r.value, "LOGICAL") == s.value
  {
    var excluded :- IsExcluded(item);
    if excluded then Ok(dd)
    else
      var lg :- SetDefault(dd, "LOGICAL");
      var lg' :- InterfaceStep(lg, item, ipv4);
      SubPutAll(dd, "LOGICAL", lg');
      Ok(Put(dd, "LOGICAL", Obj(lg')))
  }

  /** One row of the loop of `analyze_logical_interfaces`; `devs` is `result['DEVICE']`. */
  function LogicalStep(devs: Fields, item: Row, ipv4: Ipv4Interface): (r: Result<Fields>)
    ensures r.Ok? ==> forall d :: d in Keys(r.value) <==> d in Keys(devs) || DeviceRow(item, d)
    ensures r.Ok? ==> forall d | !DeviceRow(item, d) :: Sub(r.value, d) == Sub(devs, d)
    ensures r.Ok? && Truthy(Dev(item)) ==> Dev(item).Str?
    ensures r.Ok? && Truthy(Dev(item)) && Dev(item).Str? ==>
      var s := DeviceStep(Sub(devs, Dev(item).s), item, ipv4);
      s.Ok? && Sub(r.value, Dev(item).s) == s.value
  {
    var device := Dev(item);
    if !Truthy(device) then Ok(devs)
    else
      var d :- KeyStr(device);
      var dd :- SetDefault(devs, d);
      var dd' :- DeviceStep(dd, item, ipv4);
      SubPutAll(devs, d, dd');
      Ok(Put(devs, d, Obj(dd')))
  }

  /** A successful step files exactly the row's device (if any) under DEVICE. */
  lemma LogicalStepDevices(devs: Fields, item: Row, ipv4: Ipv4Interface, r: Fields, d: string)
    requires LogicalStep(devs, item, ipv4) == Ok(r)
    ensures d in Keys(r) <==> d in Keys(devs) || DeviceRow(item, d)
  {
  }

  /**
   A successful step adds interface `n` to LOGICAL of device `d` exactly when
   the row is a non-excluded row naming them, and gives it an IP exactly when
   that row also carries an address and a mask; every other entry is untouched.
   */
  lemma LogicalStepInterfaces(devs: Fields, item: Row, ipv4: Ipv4Interface, r: Fields, d: string, n: string)
    requires LogicalStep(devs, item, ipv4) == Ok(r)
    ensures n in Keys(LogicalOf(r, d)) <==> n in Keys(LogicalOf(devs, d)) || LogicalRow(item, d, n)
    ensures "IP" in Keys(Intf(r, d, n)) <==> "IP" in Keys(Intf(devs, d, n)) || (LogicalRow(item, d, n) && HasAddress(item))
    ensures !LogicalRow(item, d, n) ==> Intf(r, d, n) == Intf(devs, d, n)
  {
    if DeviceRow(item, d) && !Excluded(item) {
      var lg := LogicalOf(devs, d);
      var lg' := InterfaceStep(lg, item, ipv4).value;
      assert LogicalOf(r, d) == lg';
      assert LogicalRow(item, d, n) <==> NameOf(item) == Str(n);
    }
  }

  /** What a row naming interface `n` of device `d` stores in it: ATTACH and VLAN from its port, NETWORK, MASK and IP from its address. */
  lemma LogicalStepValues(devs: Fields, item: Row, ipv4: Ipv4Interface, r: Fields, d: string, n: string)
    requires LogicalStep(devs, item, ipv4) == Ok(r)
    requires LogicalRow(item, d, n)
    ensures var port := GetOr(item, "port", Null);
      Truthy(port) ==>
        port.Str? &&
        Get(Intf(r, d, n), "ATTACH") == Some(Str(PortDescriptor(port.s).0)) &&
        Get(Intf(r, d, n), "VLAN") == Some(Str(PortDescriptor(port.s).1))
    ensures HasAddress(item) ==>
      var ni := ipv4(GetOr(item, "address", Null), GetOr(item, "mask", Null));
      ni.Some? &&
      Get(Intf(r, d, n), "NETWORK") == Some(Str(ni.value.0)) &&
      Get(Intf(r, d, n), "MASK") == Some(GetOr(item, "mask", Null)) &&
      Get(Intf(r, d, n), "IP") == Some(Str(ni.value.1))
  {
    var lg := LogicalOf(devs, d);
    var lg' := InterfaceStep(lg, item, ipv4).value;
    assert LogicalOf(r, d) == lg';
    assert Intf(r, d, n) == FillInterface(Sub(lg, n), item, ipv4).value;
  }

  /** The rows folded in order. */
  function LogicalRows(items: seq<Row>, ipv4: Ipv4Interface): (r: Result<Fields>)
  {
    if items == [] then Ok([])
    else
      var devs :- LogicalRows(items[..|items| - 1], ipv4);
      LogicalStep(devs, items[|items| - 1], ipv4)
  }

  /** Some row files device `d`. */
  predicate AnyDevice(items: seq<Row>, d: string) {
    exists i | 0 <= i < |items| :: DeviceRow(items[i], d)
  }

  /** Some row files interface `n` of device `d`. */
  predicate AnyInterface(items: seq<Row>, d: string, n: string) {
    exists i | 0 <= i < |items| :: LogicalRow(items[i], d, n)
  }

  /** Some row files interface `n` of device `d` with an address and a mask. */
  predicate AnyAddress(items: seq<Row>, d: string, n: string) {
    exists i | 0 <= i < |items| :: LogicalRow(items[i], d, n) && HasAddress(items[i])
  }

  lemma AnySnoc(items: seq<Row>, d: string, n: string)
    requires items != []
    ensures var init, last := items[..|items| - 1], items[|items| - 1];
      && (AnyDevice(items, d) <==> AnyDevice(init, d) || DeviceRow(last, d))
      && (AnyInterface(items, d, n) <==> AnyInterface(init, d, n) || LogicalRow(last, d, n))
      && (AnyAddress(items, d, n) <==> AnyAddress(init, d, n) || (LogicalRow(last, d, n) && HasAddress(last)))
  {
    AnyDeviceSnoc(items, d);
    AnyInterfaceSnoc(items, d, n);
    AnyAddressSnoc(items, d, n);
  }

  lemma AnyDeviceSnoc(items: seq<Row>, d: string)
    requires items != []
    ensures AnyDevice(items, d) <==> AnyDevice(items[..|items| - 1], d) || DeviceRow(items[|items| - 1], d)
  {
    var init := items[..|items| - 1];
    assert forall i | 0 <= i < |init| :: init[i] == items[i];
  }

  lemma AnyInterfaceSnoc(items: seq<Row>, d: string, n: string)
    requires items != []
    ensures AnyInterface(items, d, n) <==> AnyInterface(items[..|items| - 1], d, n) || LogicalRow(items[|items| - 1], d, n)
  {
    var init := items[..|items| - 1];
    assert forall i | 0 <= i < |init| :: init[i] == items[i];
  }

  lemma AnyAddressSnoc(items: seq<Row>, d: string, n: string)
    requires items != []
    ensures AnyAddress(items, d, n) <==> AnyAddress(items[..|items| - 1], d, n) || (LogicalRow(items[|items| - 1], d, n) && HasAddress(items[|items| - 1]))
  {
    var init := items[..|items| - 1];
    assert forall i | 0 <= i < |init| :: init[i] == items[i];
  }

  /**
   After the whole loop: the devices under DEVICE are exactly those of the
   rows with a device; interface `n` sits under LOGICAL of device `d` exactly
   when some non-excluded row names both; it has an IP exactly when one such
   row also carries an address and a mask.
   */
  lemma {:induction false} LogicalRowsContents(items: seq<Row>, ipv4: Ipv4Interface, d: string, n: string)
    requires LogicalRows(items, ipv4).Ok?
    ensures var devs := LogicalRows(items, ipv4).value;
      && (d in Keys(devs) <==> AnyDevice(items, d))
      && (n in Keys(LogicalOf(devs, d)) <==> AnyInterface(items, d, n))
      && ("IP" in Keys(Intf(devs, d, n)) <==> AnyAddress(items, d, n))
  {
    if items != [] {
      var init, last := items[..|items| - 1], items[|items| - 1];
      LogicalRowsContents(init, ipv4, d, n);
      var devs := LogicalRows(init, ipv4).value;
      var r := LogicalRows(items, ipv4).value;
      LogicalStepDevices(devs, last, ipv4, r, d);
      LogicalStepInterfaces(devs, last, ipv4, r, d, n);
      AnySnoc(items, d, n);
    }
  }

  /** The last row naming an interface decides its ATTACH and VLAN: a later row without a port leaves them as they were. */
  lemma LogicalRowsLastPort(items: seq<Row>, ipv4: Ipv4Interface, d: string, n: string)
    requires LogicalRows(items, ipv4).Ok?
    requires items != [] && LogicalRow(items[|items| - 1], d, n)
    ensures var port := GetOr(items[|items| - 1], "port", Null);
      var devs := LogicalRows(items, ipv4).value;
      Truthy(port) ==>
        port.Str? && Get(Intf(devs, d, n), "ATTACH") == Some(Str(PortDescriptor(port.s).0))
  {
    var init := items[..|items| - 1];
    LogicalStepValues(LogicalRows(init, ipv4).value, items[|items| - 1], ipv4, LogicalRows(items, ipv4).value, d, n);
  }

  /** `analyze_logical_interfaces` on the flattened rows. */
  function AnalyzeLogical(items: seq<Row>, ipv4: Ipv4Interface): (r: Result<Json>)
    ensures r.Ok? ==> r.value.Obj? && Keys(r.value.fields) == {"DEVICE"}
  {
    var devs :- LogicalRows(items, ipv4);
    KeysCons(("DEVICE", Obj(devs)), []);
    Ok(Obj([("DEVICE", Obj(devs))]))
  }

  // ===========================================================================
  // analyze_lags
  // ===========================================================================

  /** `item.get('lag-name').split('lag-')[1]`: the text between the first and the second `lag-`. */
  function LagName(item: Row): (r: Result<string>)
    ensures r.Ok? <==> GetOr(item, "lag-name", Null).Str? && Contains(GetOr(item, "lag-name", Null).s, "lag-")
    ensures r.Ok? ==> var s := GetOr(item, "lag-name", Null).s; r.value == Before(After(s, "lag-"), "lag-")
  {
    match GetOr(item, "lag-name", Null)
    case Str(s) =>
      var parts := Split(s, "lag-");
      SplitBeforeAfter(s, "lag-");
      if |parts| < 2 then Err("IndexError") else Ok(parts[1])
    case _ => Err("AttributeError")
  }

  /** The LAG a port entry of a device dict names, if it holds a string. */
  function PortLag(dd: Fields, p: string): Option<string> {
    match Get<string, Json>(Sub(Sub(dd, "PORT"), p), "LAG")
    case Some(Str(l)) => Some(l)
    case _ => None
  }

  /** Every port recorded under PORT of a device dict names a LAG recorded under LAG of the same dict. */
  predicate LagsConsistent(dd: Fields) {
    forall p | p in Keys(Sub(dd, "PORT")) :: PortLag(dd, p).Some? && PortLag(dd, p).value in Keys(Sub(dd, "LAG"))
  }

  /** `device_dict.setdefault('LAG', {}).setdefault(lag, {})['admin-state'] = ...`. */
  function RecordLag(dd: Fields, lag: string, item: Row): (r: Result<Fields>)
    ensures r.Ok? ==> Keys(Sub(r.value, "LAG")) == Keys(Sub(dd, "LAG")) + {lag}
    ensures r.Ok? ==> Get(Sub(Sub(r.value, "LAG"), lag), "admin-state") == Some(GetOr(item, "admin-state", Str("")))
    ensures r.Ok? ==> Sub(r.value, "PORT") == Sub(dd, "PORT")
  {
    var lags :- SetDefault(dd, "LAG");
    var ld :- SetDefault(lags, lag);
    var ld' := Put(ld, "admin-state", GetOr(item, "admin-state", Str("")));
    var lags' := Put(lags, lag, Obj(ld'));
    SubPutAll(dd, "LAG", lags');
    SubPutAll(lags, lag, ld');
    Ok(Put(dd, "LAG", Obj(lags')))
  }

  /** `device_dict.setdefault('PORT', {}).setdefault(port, {})['LAG'] = lag`. */
  function AttachPort(dd: Fields, lag: string, p: string): (r: Result<Fields>)
    ensures r.Ok? ==> PortLag(r.value, p) == Some(lag)
    ensures r.Ok? ==> Keys(Sub(r.value, "PORT")) == Keys(Sub(dd, "PORT")) + {p}
    ensures r.Ok? ==> forall p' | p' != p :: Sub(Sub(r.value, "PORT"), p') == Sub(Sub(dd, "PORT"), p')
    ensures r.Ok? ==> Sub(r.value, "LAG") == Sub(dd, "LAG")
  {
    var ports :- SetDefault(dd, "PORT");
    var pd :- SetDefault(ports, p);
    var pd' := Put(pd, "LAG", Str(lag));
    var ports' := Put(ports, p, Obj(pd'));
    SubPutAll(dd, "PORT", ports');
    SubPutAll(ports, p, pd');
    Ok(Put(dd, "PORT", Obj(ports')))
  }

  /** The LAG half of one row, for a non-empty LAG name: record its admin state and attach the port to it. */
  function LagDeviceStep(dd: Fields, lag: string, item: Row): (r: Result<Fields>)
    ensures r.Ok? ==> Keys(Sub(r.value, "LAG")) == Keys(Sub(dd, "LAG")) + {lag}
    ensures r.Ok? ==> Get(Sub(Sub(r.value, "LAG"), lag), "admin-state") == Some(GetOr(item, "admin-state", Str("")))
    ensures r.Ok? ==> var port := GetOr(item, "port", Null);
      && (!Truthy(port) ==> Sub(r.value, "PORT") == Sub(dd, "PORT"))
      && (Truthy(port) ==>
            port.Str? && PortLag(r.value, port.s) == Some(lag) &&
            Keys(Sub(r.value, "PORT")) == Keys(Sub(dd, "PORT")) + {port.s} &&
            forall p | p != port.s :: Sub(Sub(r.value, "PORT"), p) == Sub(Sub(dd, "PORT"), p))
  {
    var dd1 :- RecordLag(dd, lag, item);
    var port := GetOr(item, "port", Null);
    if !Truthy(port) then Ok(dd1)
    else
      var p :- KeyStr(port);
      AttachPort(dd1, lag, p)
  }

  /** One row of the loop of `analyze_lags`; `devs` is `result['DEVICE']`. */
  function LagStep(devs: Fields, item: Row): (r: Result<Fields>)
    ensures r.Ok? ==> forall d :: d in Keys(r.value) <==> d in Keys(devs) || DeviceRow(item, d)
    ensures r.Ok? ==> forall d | !DeviceRow(item, d) :: Sub(r.value, d) == Sub(devs, d)
    ensures r.Ok? && Truthy(Dev(item)) ==> Dev(item).Str? && LagName(item).Ok?
    ensures r.Ok? && Truthy(Dev(item)) && Dev(item).Str? && LagName(item).Ok? ==>
      var d, lag := Dev(item).s, LagName(item).value;
      if lag == "" then Sub(r.value, d) == Sub(devs, d)
      else
        var s := LagDeviceStep(Sub(devs, d), lag, item);
        s.Ok? && Sub(r.value, d) == s.value
  {
    var device := Dev(item);
    if !Truthy(device) then Ok(devs)
    else
      var d :- KeyStr(device);
      var dd :- SetDefault(devs, d);
      var lag :- LagName(item);
      var dd' :- if lag == "" then Ok(dd) else LagDeviceStep(dd, lag, item);
      SubPutAll(devs, d, dd');
      Ok(Put(devs, d, Obj(dd')))
  }

  /** A step keeps every device dict consistent: the port it attaches names the LAG it has just recorded. */
  lemma LagDeviceStepConsistent(dd: Fields, lag: string, item: Row)
    requires LagsConsistent(dd)
    requires LagDeviceStep(dd, lag, item).Ok?
    ensures LagsConsistent(LagDeviceStep(dd, lag, item).value)
  {
    var r := LagDeviceStep(dd, lag, item).value;
    forall p | p in Keys(Sub(r, "PORT"))
      ensures PortLag(r, p).Some? && PortLag(r, p).value in Keys(Sub(r, "LAG"))
    {
      var port := GetOr(item, "port", Null);
      if !(Truthy(port) && p == port.s) {
        assert Sub(Sub(r, "PORT"), p) == Sub(Sub(dd, "PORT"), p);
        assert PortLag(r, p) == PortLag(dd, p);
      }
    }
  }

  lemma {:induction false} LagStepConsistent(devs: Fields, item: Row, d: string)
    requires LagsConsistent(Sub(devs, d))
    requires LagStep(devs, item).Ok?
    ensures LagsConsistent(Sub(LagStep(devs, item).value, d))
  {
    if DeviceRow(item, d) && LagName(item).value != "" {
      LagDeviceStepConsistent(Sub(devs, d), LagName(item).value, item);
    }
  }

  /** The rows folded in order. */
  function LagRows(items: seq<Row>): (r: Result<Fields>)
  {
    if items == [] then Ok([])
    else
      var devs :- LagRows(items[..|items| - 1]);
      LagStep(devs, items[|items| - 1])
  }

  /** After the whole loop every device's PORT entries name LAGs recorded under that device. */
  lemma {:induction false} LagRowsConsistent(items: seq<Row>, d: string)
    requires LagRows(items).Ok?
    ensures LagsConsistent(Sub(LagRows(items).value, d))
  {
    if items != [] {
      LagRowsConsistent(items[..|items| - 1], d);
      LagStepConsistent(LagRows(items[..|items| - 1]).value, items[|items| - 1], d);
    }
  }

  /** `analyze_lags` on the flattened rows. */
  function AnalyzeLags(items: seq<Row>): (r: Result<Json>)
    ensures r.Ok? ==> r.value.Obj? && Keys(r.value.fields) == {"DEVICE"}
  {
    var devs :- LagRows(items);
    KeysCons(("DEVICE", Obj(devs)), []);
    Ok(Obj([("DEVICE", Obj(devs))]))
  }

  // ===========================================================================
  // analyze_isis
  // ===========================================================================

  function MetricOf(item: Row): Json {
    GetOr(item, "metric", Null)
  }

  /** The interface name an IS-IS row is filed under (`item.get('name', '')`). */
  function IsisName(item: Row): Json {
    GetOr(item, "name", Str(""))
  }

  /** A row that files interface `n` of device `d` under ISIS: not loopback or system, with a truthy metric. */
  predicate IsisRow(item: Row, d: string, n: string) {
    DeviceRow(item, d) && !Excluded(item) && Truthy(MetricOf(item)) && IsisName(item) == Str(n)
  }

  /** The IS-IS entry of one interface: METRIC, and ADJ_SID when the row has an adjacency SID. */
  function IsisEntry(e: Fields, item: Row): (r: Result<Fields>)
    ensures r.Ok? ==> PyInt(MetricOf(item)).Ok? && Get(r.value, "METRIC") == Some(Int(PyInt(MetricOf(item)).value))
    ensures r.Ok? ==> var adj := GetOr(item, "adj-sid", Null);
      && (Truthy(adj) ==> PyInt(adj).Ok? && Get(r.value, "ADJ_SID") == Some(Int(PyInt(adj).value)))
      && (!Truthy(adj) ==> Get(r.value, "ADJ_SID") == Get(e, "ADJ_SID"))
  {
    var m :- PyInt(MetricOf(item));
    var e1 := Put(e, "METRIC", Int(m));
    var adj := GetOr(item, "adj-sid", Null);
    if Truthy(adj) then
      var a :- PyInt(adj);
      Ok(Put(e1, "ADJ_SID", Int(a)))
    else Ok(e1)
  }

  /** Storing `e` two levels down, under `d` and then `n`, changes only that entry. */
  lemma PutNested(fs: Fields, d: string, n: string, e: Fields)
    ensures var r := Put(fs, d, Obj(Put(Sub(fs, d), n, Obj(e))));
      && Keys(r) == Keys(fs) + {d}
      && Sub(Sub(r, d), n) == e
      && (forall d', n' | d' != d || n' != n :: Sub(Sub(r, d'), n') == Sub(Sub(fs, d'), n'))
      && (forall d', n' :: n' in Keys(Sub(r, d')) <==> n' in Keys(Sub(fs, d')) || (d' == d && n' == n))
  {
    var inner := Put(Sub(fs, d), n, Obj(e));
    var r := Put(fs, d, Obj(inner));
    SubPutAll(Sub(fs, d), n, e);
    SubPutAll(fs, d, inner);
    assert Sub(r, d) == inner;
    forall d', n' | d' != d || n' != n
      ensures Sub(Sub(r, d'), n') == Sub(Sub(fs, d'), n')
    {
      if d' != d {
        assert Sub(r, d') == Sub(fs, d');
      }
    }
    forall d', n'
      ensures n' in Keys(Sub(r, d')) <==> n' in Keys(Sub(fs, d')) || (d' == d && n' == n)
    {
      if d' != d {
        assert Sub(r, d') == Sub(fs, d');
      }
    }
  }

  /** A row that adds device `d` to ISIS. */
  predicate IsisDevice(item: Row, d: string) {
    DeviceRow(item, d) && !Excluded(item) && Truthy(MetricOf(item)) && IsisName(item).Str?
  }

  /** One row of the loop of `analyze_isis`; `isis` is `result['ISIS']`. */
  function IsisStep(isis: Fields, item: Row): (r: Result<Fields>)
    ensures r.Ok? ==> forall d :: d in Keys(r.value) <==> d in Keys(isis) || IsisDevice(item, d)
    ensures r.Ok? ==> forall d, n | !IsisRow(item, d, n) :: Sub(Sub(r.value, d), n) == Sub(Sub(isis, d), n)
    ensures r.Ok? ==> forall d, n :: n in Keys(Sub(r.value, d)) <==> n in Keys(Sub(isis, d)) || IsisRow(item, d, n)
    ensures r.Ok? ==> forall d, n | IsisRow(item, d, n) ::
      var e := IsisEntry(Sub(Sub(isis, d), n), item);
      e.Ok? && Sub(Sub(r.value, d), n) == e.value
  {
    var device := Dev(item);
    if !Truthy(device) then Ok(isis)
    else
      var excluded :- IsExcluded(item);
      if excluded || !Truthy(MetricOf(item)) then Ok(isis)
      else
        var d :- KeyStr(device);
        var n :- KeyStr(IsisName(item));
        var dd :- SetDefault(isis, d);
        var e :- SetDefault(dd, n);
        var e' :- IsisEntry(e, item);
        PutNested(isis, d, n, e');
        IsisStepFacts(isis, item, d, n, e', Put(isis, d, Obj(Put(dd, n, Obj(e')))));
        Ok(Put(isis, d, Obj(Put(dd, n, Obj(e')))))
  }

  /** What `PutNested` guarantees, restated in terms of the rows the step files. */
  lemma IsisStepFacts(isis: Fields, item: Row, d: string, n: string, e': Fields, r: Fields)
    requires IsisRow(item, d, n)
    requires Keys(r) == Keys(isis) + {d}
    requires Sub(Sub(r, d), n) == e'
    requires forall d', n' | d' != d || n' != n :: Sub(Sub(r, d'), n') == Sub(Sub(isis, d'), n')
    requires forall d', n' :: n' in Keys(Sub(r, d')) <==> n' in Keys(Sub(isis, d')) || (d' == d && n' == n)
    ensures forall d' :: d' in Keys(r) <==> d' in Keys(isis) || IsisDevice(item, d')
    ensures forall d', n' | !IsisRow(item, d', n') :: Sub(Sub(r, d'), n') == Sub(Sub(isis, d'), n')
    ensures forall d', n' :: n' in Keys(Sub(r, d')) <==> n' in Keys(Sub(isis, d')) || IsisRow(item, d', n')
    ensures forall d', n' | IsisRow(item, d', n') :: Sub(Sub(r, d'), n') == e' && d' == d && n' == n
  {
    IsisRowOnly(item, d, n);
  }

  /** The row names exactly one device and one interface. */
  lemma IsisRowOnly(item: Row, d: string, n: string)
    requires IsisRow(item, d, n)
    ensures forall d' :: IsisDevice(item, d') <==> d' == d
    ensures forall d', n' :: IsisRow(item, d', n') <==> d' == d && n' == n
  {
  }

  /** The rows folded in order. */
  function IsisRows(items: seq<Row>): (r: Result<Fields>)
  {
    if items == [] then Ok([])
    else
      var isis :- IsisRows(items[..|items| - 1]);
      IsisStep(isis, items[|items| - 1])
  }

  /** Some row files interface `n` of device `d` under ISIS. */
  predicate AnyIsis(items: seq<Row>, d: string, n: string) {
    exists i | 0 <= i < |items| :: IsisRow(items[i], d, n)
  }

  lemma AnyIsisSnoc(items: seq<Row>, d: string, n: string)
    requires items != []
    ensures AnyIsis(items, d, n) <==> AnyIsis(items[..|items| - 1], d, n) || IsisRow(items[|items| - 1], d, n)
  {
    var init := items[..|items| - 1];
    assert forall i | 0 <= i < |init| :: init[i] == items[i];
  }

  /** After the whole loop, interface `n` of device `d` is under ISIS exactly when some non-excluded row with a metric names both. */
  lemma {:induction false} IsisRowsContents(items: seq<Row>, d: string, n: string)
    requires IsisRows(items).Ok?
    ensures n in Keys(Sub(IsisRows(items).value, d)) <==> AnyIsis(items, d, n)
  {
    if items != [] {
      IsisRowsContents(items[..|items| - 1], d, n);
      AnyIsisSnoc(items, d, n);
    }
  }

  /**
   `analyze_isis` on the flattened rows. Its DEVICE dict is created but never
   filled: only ISIS receives entries.
   */
  function AnalyzeIsis(items: seq<Row>): (r: Result<Json>)
    ensures r.Ok? ==> r.value.Obj? && Keys(r.value.fields) == {"DEVICE", "ISIS"}
    ensures r.Ok? ==> Get(r.value.fields, "DEVICE") == Some(Obj([]))
    ensures r.Ok? <==> IsisRows(items).Ok?
  {
    var isis :- IsisRows(items);
    var fs := [("DEVICE", Obj([])), ("ISIS", Obj(isis))];
    KeysCons(fs[1], []);
    KeysCons(fs[0], fs[1..]);
    Ok(Obj(fs))
  }
}
