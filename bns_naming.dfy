/**
 * `BNSNamingService`: a naming service that is configured through setters,
 * initialised once by `afterPropertiesSet`, and then resolves a set of
 * service signatures to endpoints by querying the BNS registry once and
 * giving every signature the same endpoint list.
 */
module BnsNaming {
  import opened Wrappers
  import opened StringUtils
  import opened BnsQuery
  import opened StatusFilter
  import opened RegisterInfos

  /** The assertions of `afterPropertiesSet` that can fail. */
  datatype ConfigError = BnsNameIsNull | PortNameIsNull

  const DEFAULT_TIMEOUT: int32 := 3000
  const DEFAULT_PORT_NAME: string := "rpc"
  const DEFAULT_FILTER_INSTANCE_STATUS: string := "0"

  /** The filter set after a successful `afterPropertiesSet`: built from a non-blank string, otherwise left as it was. */
  function FilterAfterInit(filterInstanceStatus: Option<string>, current: Option<set<int32>>): Option<set<int32>> {
    if IsBlank(filterInstanceStatus) then current else Some(FilterSetOf(filterInstanceStatus.value))
  }

  /** Every signature mapped to the same endpoint list. */
  function Replicate(signatures: set<string>, registerInfos: Option<seq<RegisterInfo>>): map<string, Option<seq<RegisterInfo>>> {
    map s | s in signatures :: registerInfos
  }

  /** What `list` gives for non-null signatures, once the registry has replied. */
  function ListResult(signatures: set<string>, reply: Reply, filter: Option<set<int32>>, portName: Option<string>)
    : Result<map<string, Option<seq<RegisterInfo>>>, QueryError>
  {
    match reply
    case Failure(e) => Failure(e)
    case Success(instanceList) => Success(Replicate(signatures, Wrap(filter, portName, instanceList)))
  }

  /**
   * The map `list` returns has exactly the requested signatures as keys and
   * gives each of them the one endpoint list, null included.
   */
  lemma ListSharesOneResult(signatures: set<string>, instanceList: Option<seq<Instance>>,
                            filter: Option<set<int32>>, portName: Option<string>)
    ensures var r := ListResult(signatures, Success(instanceList), filter, portName);
      && r.Success?
      && r.value.Keys == signatures
      && forall s :: s in r.value ==> r.value[s] == Wrap(filter, portName, instanceList)
  {
  }

  /** A failed registry query fails the whole call: there is no partial map. */
  lemma ListPropagatesQueryError(signatures: set<string>, e: QueryError,
                                 filter: Option<set<int32>>, portName: Option<string>)
    ensures ListResult(signatures, Failure(e), filter, portName) == Failure(e)
  {
  }

  /** A blank filter string accepts every status: initialisation keeps the null filter a fresh service has. */
  lemma BlankFilterAcceptsAll(filterInstanceStatus: Option<string>, status: int32)
    requires IsBlank(filterInstanceStatus)
    ensures FilterAfterInit(filterInstanceStatus, None) == None
    ensures Accepts(FilterAfterInit(filterInstanceStatus, None), status)
  {
  }

  /** The reply of the resolution example: a healthy instance with an "rpc" port and an unhealthy one. */
  function ExampleInstances(): seq<Instance> {
    [Instance("10.0.0.1", 0, 9000, Some(map["rpc" := "8080"])), Instance("10.0.0.2", 1, 9000, None)]
  }

  /** The default filter keeps the healthy instance only, dialled on its "rpc" port. */
  lemma ExampleEndpoints()
    ensures Endpoints(Some({0}), Some(DEFAULT_PORT_NAME), ExampleInstances()) == [RegisterInfo("10.0.0.1", 8080)]
  {
    var instances := ExampleInstances();
    var healthy := instances[0];
    PortResolver.RpcPortExamples();
    assert ToRegisterInfo(Some(DEFAULT_PORT_NAME), healthy) == RegisterInfo("10.0.0.1", 8080);
    assert instances[..1] == [healthy];
    assert [healthy][..0] == [];
    assert Endpoints(Some({0}), Some(DEFAULT_PORT_NAME), [healthy]) == [RegisterInfo("10.0.0.1", 8080)];
    assert !Accepts(Some({0}), instances[1].status);
  }

  /**
   * With the default configuration, that reply resolves every requested
   * signature to the healthy instance's "rpc" endpoint.
   */
  lemma ExampleResolution()
    ensures var endpoints := Some([RegisterInfo("10.0.0.1", 8080)]);
      ListResult({"svcA", "svcB"}, Success(Some(ExampleInstances())),
                 FilterAfterInit(Some(DEFAULT_FILTER_INSTANCE_STATUS), None), Some(DEFAULT_PORT_NAME))
      == Success(map["svcA" := endpoints, "svcB" := endpoints])
  {
    DefaultFilterAcceptsZeroOnly(1);
    assert !IsWhitespace(DEFAULT_FILTER_INSTANCE_STATUS[0]);
    assert FilterAfterInit(Some(DEFAULT_FILTER_INSTANCE_STATUS), None) == Some({0});
    ExampleEndpoints();
    var endpoints := Some([RegisterInfo("10.0.0.1", 8080)]);
    assert Replicate({"svcA", "svcB"}, endpoints) == map["svcA" := endpoints, "svcB" := endpoints];
  }

  class BnsNamingService {
    /** The registry client, `BNSQueryAgentProxy.proxy()` in the Java class; its creation is not modelled. */
    const proxy: BnsQueryAgentProxy
    var timeout: int32
    var bnsName: Option<string>
    var portName: Option<string>
    /** Accepted instance statuses, comma separated. */
    var filterInstanceStatus: Option<string>
    /** Built by `afterPropertiesSet`; null accepts every status. */
    var instanceStatusFilterSet: Option<set<int32>>

    constructor (proxy: BnsQueryAgentProxy)
      ensures this.proxy == proxy
      ensures timeout == DEFAULT_TIMEOUT && bnsName == None && portName == Some(DEFAULT_PORT_NAME)
      ensures filterInstanceStatus == Some(DEFAULT_FILTER_INSTANCE_STATUS) && instanceStatusFilterSet == None
    {
      this.proxy := proxy;
      timeout := DEFAULT_TIMEOUT;
      bnsName := None;
      portName := Some(DEFAULT_PORT_NAME);
      filterInstanceStatus := Some(DEFAULT_FILTER_INSTANCE_STATUS);
      instanceStatusFilterSet := None;
    }

    method SetFilterInstanceStatus(filterInstanceStatus: Option<string>)
      modifies this`filterInstanceStatus
      ensures this.filterInstanceStatus == filterInstanceStatus
    {
      this.filterInstanceStatus := filterInstanceStatus;
    }

    method SetPortName(portName: Option<string>)
      modifies this`portName
      ensures this.portName == portName
    {
      this.portName := portName;
    }

    method SetBnsName(bnsName: Option<string>)
      modifies this`bnsName
      ensures this.bnsName == bnsName
    {
      this.bnsName := bnsName;
    }

    method SetTimeout(timeout: int32)
      modifies this`timeout
      ensures this.timeout == timeout
    {
      this.timeout := timeout;
    }

    /**
     * Checks that `bnsName` and `portName` are set, then builds the filter
     * set from a non-blank `filterInstanceStatus`. A failed check changes
     * nothing; a blank filter string leaves the filter set as it was.
     */
    method AfterPropertiesSet() returns (outcome: Outcome<ConfigError>)
      modifies this`instanceStatusFilterSet
      ensures bnsName.None? ==> outcome == Fail(BnsNameIsNull)
      ensures bnsName.Some? && portName.None? ==> outcome == Fail(PortNameIsNull)
      ensures outcome.Pass? <==> bnsName.Some? && portName.Some?
      ensures outcome.Fail? ==> instanceStatusFilterSet == old(instanceStatusFilterSet)
      ensures outcome.Pass? ==>
        instanceStatusFilterSet == FilterAfterInit(filterInstanceStatus, old(instanceStatusFilterSet))
    {
      if bnsName.None? {
        return Fail(BnsNameIsNull);
      }
      if portName.None? {
        return Fail(PortNameIsNull);
      }
      if !IsBlank(filterInstanceStatus) {
        var filterSet := BuildStatusFilterSet(filterInstanceStatus.value);
        instanceStatusFilterSet := Some(filterSet);
      }
      return Pass;
    }

    /**
     * Resolves the signatures: null gives an empty map without a query;
     * otherwise one query, and every signature mapped to the endpoints of its
     * reply, or the query's error.
     */
    method List(serviceSignatures: Option<set<string>>)
      returns (r: Result<map<string, Option<seq<RegisterInfo>>>, QueryError>)
      modifies proxy`queries
      ensures serviceSignatures.None? ==> r == Success(map[]) && proxy.queries == old(proxy.queries)
      ensures serviceSignatures.Some? ==>
        && proxy.queries == old(proxy.queries) + [Query(bnsName, timeout)]
        && r == ListResult(serviceSignatures.value, proxy.answer, instanceStatusFilterSet, portName)
    {
      if serviceSignatures.None? {
        return Success(map[]);
      }
      var reply := DoGetInstanceList();
      if reply.Failure? {
        return Failure(reply.error);
      }
      var registerInfos := WrapRegisterInfos(reply.value);
      var ret: map<string, Option<seq<RegisterInfo>>> := map[];
      var rest := serviceSignatures.value;
      while rest != {}
        invariant rest <= serviceSignatures.value
        invariant ret == Replicate(serviceSignatures.value - rest, registerInfos)
        decreases rest
      {
        var serviceSignature :| serviceSignature in rest;
        ret := ret[serviceSignature := registerInfos];
        rest := rest - {serviceSignature};
        assert ret == Replicate(serviceSignatures.value - rest, registerInfos);
      }
      assert serviceSignatures.value - rest == serviceSignatures.value;
      return Success(ret);
    }

    /** One registry query for the configured service name and timeout. */
    method DoGetInstanceList() returns (instanceList: Reply)
      modifies proxy`queries
      ensures instanceList == proxy.answer
      ensures proxy.queries == old(proxy.queries) + [Query(bnsName, timeout)]
    {
      instanceList := proxy.GetInstanceByService(bnsName, timeout);
    }

    /** The endpoints of the instances the filter accepts, in order; null for a null or empty list. */
    method WrapRegisterInfos(instanceList: Option<seq<Instance>>) returns (r: Option<seq<RegisterInfo>>)
      ensures r == Wrap(instanceStatusFilterSet, portName, instanceList)
    {
      if instanceList.None? || |instanceList.value| == 0 {
        return None;
      }
      var instances := instanceList.value;
      var ret: seq<RegisterInfo> := [];
      for i := 0 to |instances|
        invariant ret == Endpoints(instanceStatusFilterSet, portName, instances[..i])
      {
        assert instances[..i + 1][..i] == instances[..i];
        var bnsInstance := instances[i];
        var status := bnsInstance.status;
        if instanceStatusFilterSet.Some? && status !in instanceStatusFilterSet.value {
          continue;
        }
        var ip := bnsInstance.dottedIP;
        var registerInfo := RegisterInfo(ip, PortResolver.BuildRpcPort(portName, bnsInstance.ports, bnsInstance.port));
        ret := ret + [registerInfo];
      }
      assert instances[..|instances|] == instances;
      return Some(ret);
    }
  }

  /**
   * A fresh service fails to initialise without a BNS name, and once one is
   * set it initialises with the default filter {0}.
   */
  method InitialisationScenario(proxy: BnsQueryAgentProxy) {
    var service := new BnsNamingService(proxy);
    var outcome := service.AfterPropertiesSet();
    assert outcome == Fail(BnsNameIsNull) && service.instanceStatusFilterSet == None;
    service.SetBnsName(Some("svc.bns"));
    outcome := service.AfterPropertiesSet();
    assert outcome == Pass;
    assert !IsWhitespace(DEFAULT_FILTER_INSTANCE_STATUS[0]);
    DefaultFilterAcceptsZeroOnly(0);
    assert service.instanceStatusFilterSet == Some({0});
  }

  /** `list(null)` issues no query; a non-null but empty signature set still queries once. */
  method QueryCountScenario(reply: Reply) {
    var proxy := new BnsQueryAgentProxy(reply);
    var service := new BnsNamingService(proxy);
    service.SetBnsName(Some("svc.bns"));
    var r := service.List(None);
    assert r == Success(map[]) && proxy.queries == [];
    r := service.List(Some({}));
    assert proxy.queries == [Query(Some("svc.bns"), DEFAULT_TIMEOUT)];
  }
}
