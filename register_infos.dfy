/**
 * The endpoints (`RegisterInfo`) resolved from a registry reply: the
 * instances whose status passes the filter, in their order, each turned
 * into its dotted IP and selected port.
 */
module RegisterInfos {
  import opened Wrappers
  import opened StringUtils
  import opened BnsQuery
  import opened StatusFilter
  import opened PortResolver

  /** A resolved endpoint. */
  datatype RegisterInfo = RegisterInfo(host: string, port: int32)

  /** The endpoint one instance resolves to. */
  function ToRegisterInfo(portName: Option<string>, instance: Instance): RegisterInfo {
    RegisterInfo(instance.dottedIP, BuildRpcPort(portName, instance.ports, instance.port))
  }

  /** How many of the instances pass the filter. */
  function CountAccepted(filter: Option<set<int32>>, instances: seq<Instance>): nat {
    if instances == [] then 0
    else
      CountAccepted(filter, instances[..|instances| - 1]) +
      (if Accepts(filter, instances[|instances| - 1].status) then 1 else 0)
  }

  /** The endpoints of the accepted instances, in order. */
  function Endpoints(filter: Option<set<int32>>, portName: Option<string>, instances: seq<Instance>): seq<RegisterInfo> {
    if instances == [] then []
    else
      var init := Endpoints(filter, portName, instances[..|instances| - 1]);
      var last := instances[|instances| - 1];
      if Accepts(filter, last.status) then init + [ToRegisterInfo(portName, last)] else init
  }

  /** What `wrapRegisterInfos` returns: null for a null or empty list, otherwise the endpoints. */
  function Wrap(filter: Option<set<int32>>, portName: Option<string>, instanceList: Option<seq<Instance>>): Option<seq<RegisterInfo>> {
    if instanceList.None? || |instanceList.value| == 0 then None
    else Some(Endpoints(filter, portName, instanceList.value))
  }

  /** One endpoint per accepted instance; never more endpoints than instances. */
  lemma {:induction false} EndpointsLength(filter: Option<set<int32>>, portName: Option<string>, instances: seq<Instance>)
    ensures |Endpoints(filter, portName, instances)| == CountAccepted(filter, instances) <= |instances|
  {
    if instances != [] {
      EndpointsLength(filter, portName, instances[..|instances| - 1]);
    }
  }

  /**
   * Every accepted instance is in the result, at the position given by the
   * number of accepted instances before it.
   */
  lemma {:induction false} EndpointsIncludeAccepted(filter: Option<set<int32>>, portName: Option<string>,
                                                   instances: seq<Instance>, i: nat)
    requires i < |instances| && Accepts(filter, instances[i].status)
    ensures var e := Endpoints(filter, portName, instances);
      CountAccepted(filter, instances[..i]) < |e| &&
      e[CountAccepted(filter, instances[..i])] == ToRegisterInfo(portName, instances[i])
  {
    var init := instances[..|instances| - 1];
    if i == |instances| - 1 {
      assert init == instances[..i];
      EndpointsLength(filter, portName, init);
    } else {
      assert init[..i] == instances[..i];
      EndpointsIncludeAccepted(filter, portName, init, i);
    }
  }

  /** Every endpoint in the result comes from an accepted instance, at the position that instance's rank gives. */
  lemma {:induction false} EndpointsComeFromAccepted(filter: Option<set<int32>>, portName: Option<string>,
                                                    instances: seq<Instance>, k: nat)
    requires k < |Endpoints(filter, portName, instances)|
    ensures exists i :: (0 <= i < |instances| && Accepts(filter, instances[i].status) &&
      CountAccepted(filter, instances[..i]) == k &&
      Endpoints(filter, portName, instances)[k] == ToRegisterInfo(portName, instances[i]))
  {
    var n := |instances|;
    var init := instances[..n - 1];
    EndpointsLength(filter, portName, init);
    if k < |Endpoints(filter, portName, init)| {
      EndpointsComeFromAccepted(filter, portName, init, k);
      var i :| 0 <= i < |init| && Accepts(filter, init[i].status) &&
        CountAccepted(filter, init[..i]) == k &&
        Endpoints(filter, portName, init)[k] == ToRegisterInfo(portName, init[i]);
      assert init[..i] == instances[..i];
    } else {
      assert init == instances[..n - 1];
    }
  }

  /** Accepted instances keep their relative order: a later one has a strictly greater rank. */
  lemma {:induction false} RankIncreases(filter: Option<set<int32>>, instances: seq<Instance>, i: nat, j: nat)
    requires i < j <= |instances| && Accepts(filter, instances[i].status)
    ensures CountAccepted(filter, instances[..i]) < CountAccepted(filter, instances[..j])
  {
    var p := instances[..j];
    assert p[..j - 1] == instances[..j - 1];
    if j == i + 1 {
    } else {
      RankIncreases(filter, instances, i, j - 1);
    }
  }

  /** Without a filter every instance becomes an endpoint, in order. */
  lemma {:induction false} NoFilterKeepsAll(portName: Option<string>, instances: seq<Instance>)
    ensures var e := Endpoints(None, portName, instances);
      |e| == |instances| && forall k :: 0 <= k < |e| ==> e[k] == ToRegisterInfo(portName, instances[k])
  {
    if instances != [] {
      NoFilterKeepsAll(portName, instances[..|instances| - 1]);
    }
  }

  /** When the filter rejects every instance, there are no endpoints. */
  lemma {:induction false} AllRejectedIsEmpty(filter: Option<set<int32>>, portName: Option<string>, instances: seq<Instance>)
    requires forall k :: 0 <= k < |instances| ==> !Accepts(filter, instances[k].status)
    ensures Endpoints(filter, portName, instances) == []
  {
    if instances != [] {
      AllRejectedIsEmpty(filter, portName, instances[..|instances| - 1]);
    }
  }

  /**
   * `wrapRegisterInfos` gives null exactly for a null or empty list; for any
   * other list, its endpoints, at most as many as there are instances, and
   * the empty list (not null) when every instance is rejected.
   */
  lemma WrapShape(filter: Option<set<int32>>, portName: Option<string>, instanceList: Option<seq<Instance>>)
    ensures var r := Wrap(filter, portName, instanceList);
      && (r.None? <==> instanceList.None? || instanceList.value == [])
      && (r.Some? ==> |r.value| == CountAccepted(filter, instanceList.value) <= |instanceList.value|)
      && (r.Some? && (forall k :: 0 <= k < |instanceList.value| ==> !Accepts(filter, instanceList.value[k].status))
          ==> r == Some([]))
  {
    if instanceList.Some? {
      EndpointsLength(filter, portName, instanceList.value);
      if forall k :: 0 <= k < |instanceList.value| ==> !Accepts(filter, instanceList.value[k].status) {
        AllRejectedIsEmpty(filter, portName, instanceList.value);
      }
    }
  }
}
