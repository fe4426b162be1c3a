/**
 * The snapshot of the host's network interfaces and its deep copy.
 *
 * `NetworkState.Clone` copies the interface dictionary, every
 * `InterfaceState` in it and every address object in their DNS server
 * lists, so that nothing of the copy is shared with the original.
 */
module NetworkModel {
  import opened Common

  /** `System.Net.IPAddress`, seen through its address bytes; the IPv6
      scope id is not modelled. */
  class IPAddress {
    var bytes: seq<bv8>

    /** `new IPAddress(byte[])`. */
    constructor(bytes: seq<bv8>)
      ensures this.bytes == bytes
    {
      this.bytes := bytes;
    }

    /** `GetAddressBytes()`. */
    function GetAddressBytes(): seq<bv8>
      reads this
    {
      bytes
    }
  }

  /** The numeric values of the `OperationalStatus` and
      `NetworkInterfaceType` enumerations. */
  newtype OperationalStatus = int
  newtype NetworkInterfaceType = int

  /** Why a clone failed: a `DnsServers` list that was never set. */
  datatype CloneError = NullDnsServers

  /** Two address lists hold equal address bytes, in the same order. */
  ghost predicate SameAddresses(copy: seq<IPAddress>, original: seq<IPAddress>)
    reads copy, original
  {
    |copy| == |original| && forall k :: 0 <= k < |copy| ==> copy[k].bytes == original[k].bytes
  }

  /** No address object occurs twice in the list. */
  predicate Distinct(addresses: seq<IPAddress>) {
    forall j, k :: 0 <= j < k < |addresses| ==> addresses[j] != addresses[k]
  }

  class InterfaceState {
    var Id: string
    var Name: string
    var Status: OperationalStatus
    var Type: NetworkInterfaceType
    var ReceiveOnly: bool
    /** `None` is the null the property starts out as. */
    var DnsServers: Option<seq<IPAddress>>

    /** The property initializers: no DNS server list yet. */
    constructor()
      ensures Id == "" && Name == "" && Status == 0 && Type == 0 && !ReceiveOnly
      ensures DnsServers == None
    {
      Id := "";
      Name := "";
      Status := 0;
      Type := 0;
      ReceiveOnly := false;
      DnsServers := None;
    }

    /** The address objects this interface lists. */
    ghost function Addresses(): seq<IPAddress>
      reads this
    {
      if DnsServers.Some? then DnsServers.value else []
    }

    /** `copy` has this interface's fields and addresses with equal bytes, in the same order. */
    ghost predicate CopiedTo(copy: InterfaceState)
      reads this, copy, Addresses(), copy.Addresses()
    {
      && copy.Id == Id && copy.Name == Name && copy.Status == Status
      && copy.Type == Type && copy.ReceiveOnly == ReceiveOnly
      && DnsServers.Some? && copy.DnsServers.Some?
      && SameAddresses(copy.DnsServers.value, DnsServers.value)
    }

    /** `copy` is a copy of this interface whose address objects are all different. */
    ghost predicate ClonedTo(copy: InterfaceState)
      reads this, copy, Addresses(), copy.Addresses()
    {
      CopiedTo(copy) && Distinct(copy.Addresses())
    }

    /**
     * `Clone`: a new object with the same fields and a new list of new
     * address objects with the same bytes. A null `DnsServers` is the
     * exception the source raises when it enumerates it.
     */
    method Clone() returns (r: Result<InterfaceState, CloneError>)
      ensures r.Failure? <==> DnsServers.None?
      ensures r.Success? ==> fresh(r.value) && ClonedTo(r.value)
      ensures r.Success? ==> forall k :: 0 <= k < |r.value.Addresses()| ==> fresh(r.value.Addresses()[k])
    {
      var i := new InterfaceState();
      i.Id := Id;
      i.Name := Name;
      i.Status := Status;
      i.Type := Type;
      i.ReceiveOnly := ReceiveOnly;
      if DnsServers.None? {
        return Failure(NullDnsServers);
      }
      var servers := DnsServers.value;
      var copies: seq<IPAddress> := [];
      var n := 0;
      while n < |servers|
        invariant 0 <= n <= |servers| && |copies| == n
        invariant forall k :: 0 <= k < n ==> fresh(copies[k]) && copies[k].bytes == servers[k].bytes
        invariant Distinct(copies)
        invariant fresh(i) && i.Id == Id && i.Name == Name && i.Status == Status
        invariant i.Type == Type && i.ReceiveOnly == ReceiveOnly
      {
        var a := new IPAddress(servers[n].GetAddressBytes());
        copies := copies + [a];
        n := n + 1;
      }
      i.DnsServers := Some(copies);
      r := Success(i);
    }
  }

  class NetworkState {
    var NetworkAvailable: bool
    var Interfaces: map<string, InterfaceState>

    /** A new state has no interfaces. */
    constructor()
      ensures !NetworkAvailable && Interfaces == map[]
    {
      NetworkAvailable := false;
      Interfaces := map[];
    }

    /**
     * `interfaces.ToDictionary(i => i.Key, i => i.Value.Clone())`: the same
     * keys, each bound to a new copy of its interface; no two keys share a
     * copy, even where the original shares an object. It fails when some
     * interface has no DNS server list. The address objects are stated fresh
     * and distinct within each copy's list; that the lists of two different
     * copies share no address object is not stated.
     */
    static method CloneInterfaces(interfaces: map<string, InterfaceState>)
      returns (r: Result<map<string, InterfaceState>, CloneError>)
      ensures r.Failure? <==> exists key :: key in interfaces && interfaces[key].DnsServers.None?
      ensures r.Success? ==> r.value.Keys == interfaces.Keys
      ensures r.Success? ==> forall key :: key in interfaces ==>
        && fresh(r.value[key])
        && interfaces[key].ClonedTo(r.value[key])
        && forall k :: 0 <= k < |r.value[key].Addresses()| ==> fresh(r.value[key].Addresses()[k])
      ensures r.Success? ==> forall key1, key2 :: key1 in interfaces && key2 in interfaces && key1 != key2 ==>
        r.value[key1] != r.value[key2]
    {
      var copies: map<string, InterfaceState> := map[];
      var remaining := interfaces.Keys;
      while remaining != {}
        invariant remaining <= interfaces.Keys
        invariant copies.Keys == interfaces.Keys - remaining
        invariant forall key :: key in copies ==> interfaces[key].DnsServers.Some?
        invariant forall key :: key in copies ==>
          && fresh(copies[key])
          && interfaces[key].ClonedTo(copies[key])
          && forall k :: 0 <= k < |copies[key].Addresses()| ==> fresh(copies[key].Addresses()[k])
        invariant forall key1, key2 :: key1 in copies && key2 in copies && key1 != key2 ==> copies[key1] != copies[key2]
        decreases remaining
      {
        var key :| key in remaining;
        var copy := interfaces[key].Clone();
        if copy.Failure? {
          return Failure(copy.error);
        }
        copies := copies[key := copy.value];
        remaining := remaining - {key};
      }
      r := Success(copies);
    }

    /**
     * `Clone`: a new state with the same availability flag and a deep copy
     * of the interface dictionary.
     */
    method Clone() returns (r: Result<NetworkState, CloneError>)
      ensures r.Failure? <==> exists key :: key in Interfaces && Interfaces[key].DnsServers.None?
      ensures r.Success? ==> fresh(r.value) && r.value.NetworkAvailable == NetworkAvailable
      ensures r.Success? ==> r.value.Interfaces.Keys == Interfaces.Keys
      ensures r.Success? ==> forall key :: key in Interfaces ==>
        && fresh(r.value.Interfaces[key])
        && Interfaces[key].ClonedTo(r.value.Interfaces[key])
        && forall k :: 0 <= k < |r.value.Interfaces[key].Addresses()| ==> fresh(r.value.Interfaces[key].Addresses()[k])
      ensures r.Success? ==> forall key1, key2 :: key1 in Interfaces && key2 in Interfaces && key1 != key2 ==>
        r.value.Interfaces[key1] != r.value.Interfaces[key2]
    {
      var ns := new NetworkState();
      ns.NetworkAvailable := NetworkAvailable;
      var copies := CloneInterfaces(Interfaces);
      if copies.Failure? {
        return Failure(copies.error);
      }
      ns.Interfaces := copies.value;
      r := Success(ns);
    }
  }

  /** Once cloned, renaming an interface of the copy leaves the original's name as it was. */
  method CloneIsIndependent(original: NetworkState, key: string, newName: string) returns (copy: NetworkState?)
    requires key in original.Interfaces
    ensures original.Interfaces[key].Name == old(original.Interfaces[key].Name)
    ensures copy != null ==> key in copy.Interfaces && copy.Interfaces[key].Name == newName
  {
    var r := original.Clone();
    if r.Failure? {
      return null;
    }
    copy := r.value;
    copy.Interfaces[key].Name := newName;
  }
}
