/**
 * The BNS registry client the naming service calls: the instance records it
 * reports (`com.baidu.driver4j.bns.Instance`) and the query proxy
 * (`BNSQueryAgentProxy`). The registry itself is outside the model: a proxy
 * holds the reply it gives, which its environment chooses, and records the
 * queries it receives so that callers can state how often they query.
 */
module BnsQuery {
  import opened Wrappers
  import opened StringUtils

  /** One registered instance: its address, health status, default port and named ports (a nullable map). */
  datatype Instance = Instance(
    dottedIP: string,
    status: int32,
    port: int32,
    ports: Option<map<string, string>>)

  /** The registry was unreachable, timed out or answered badly. */
  datatype QueryError = QueryFailed(cause: string)

  /** What a query gives: a (nullable) instance list, or a thrown error. */
  type Reply = Result<Option<seq<Instance>>, QueryError>

  /** One call of `getInstanceByService(serviceName, timeout)`. */
  datatype Query = Query(serviceName: Option<string>, timeout: int32)

  class BnsQueryAgentProxy {
    /** The registry's reply to the next query; not under this model's control. */
    var answer: Reply
    /** Every query issued through this proxy, oldest first. */
    var queries: seq<Query>

    constructor (answer: Reply)
      ensures this.answer == answer && queries == []
    {
      this.answer := answer;
      queries := [];
    }

    method GetInstanceByService(serviceName: Option<string>, timeout: int32) returns (r: Reply)
      modifies this`queries
      ensures r == answer
      ensures queries == old(queries) + [Query(serviceName, timeout)]
    {
      r := answer;
      queries := queries + [Query(serviceName, timeout)];
    }
  }
}
