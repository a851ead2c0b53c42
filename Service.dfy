/**
 * The registry of nested workflows a workflow can call (`ServiceManager`).
 */
module Service {
  import opened Wrappers
  import opened WorkflowContext

  /** `ServiceNotFoundError`, raised for a name that was never registered. */
  datatype ServiceError = ServiceNotFound(name: string)

  class ServiceManager {
    /** `_services`: registered workflows by name. */
    var services: map<string, Workflow>

    constructor ()
      ensures services == map[]
    {
      services := map[];
    }

    /** `add(name, service)`: registers `service` under `name`, replacing any earlier one. */
    method Add(name: string, service: Workflow)
      modifies this
      ensures services == old(services)[name := service]
    {
      services := services[name := service];
    }

    /** `get(name)`: the workflow registered under `name`, or `ServiceNotFoundError`. */
    method Get(name: string) returns (r: Result<Workflow, ServiceError>)
      ensures name in services ==> r == Ok(services[name])
      ensures name !in services ==> r == Err(ServiceNotFound(name))
    {
      if name !in services {
        return Err(ServiceNotFound(name));
      }
      return Ok(services[name]);
    }
  }

  /** Add followed by get on the same name returns the added workflow; other names are unaffected. */
  method AddThenGet(m: ServiceManager, name: string, service: Workflow, other: string)
    returns (got: Result<Workflow, ServiceError>, gotOther: Result<Workflow, ServiceError>)
    requires other != name
    modifies m
    ensures got == Ok(service)
    ensures gotOther == old(if other in m.services then Ok(m.services[other]) else Err(ServiceNotFound(other)))
  {
    m.Add(name, service);
    got := m.Get(name);
    gotOther := m.Get(other);
  }

  /**
   * On a new manager: after adding `service` under `name`, `get(name)` returns
   * it and `get` of a name never added raises `ServiceNotFoundError`.
   */
  method FreshManagerLookup(name: string, service: Workflow, missing: string)
    returns (found: Result<Workflow, ServiceError>, notFound: Result<Workflow, ServiceError>)
    requires missing != name
    ensures found == Ok(service)
    ensures notFound == Err(ServiceNotFound(missing))
  {
    var m := new ServiceManager();
    m.Add(name, service);
    found := m.Get(name);
    notFound := m.Get(missing);
  }
}
