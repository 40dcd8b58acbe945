/**
 The `ElasticClient` object of lib/ElasticClient.js: its construction (option validation and the
 clamped liveness interval) and the two fields it updates in place, `isActive` and `isInit`, with
 the events it emits. The wrapped search client, the probe itself and the timer are outside the
 model: a probe's outcome is given to the methods below as an argument.
 */
module Client {
  import opened Wrappers
  import opened Liveness

  /** The smallest interval, in milliseconds, between two background liveness probes. */
  const DefaultPingInterval := 5000

  /** The options the constructor reads. `host` is a single address; `hosts` a list of them. */
  datatype ClientOptions = ClientOptions(
    host: Option<string>,
    hosts: Option<seq<string>>,
    livenessCheckInterval: int,
    enableLivenessCheck: bool)

  /** The error the constructor throws: 'Must specify hosts'. */
  datatype ConfigError = MustSpecifyHosts

  /** Whether `options` names somewhere to connect to, read with JavaScript truthiness: missing
      options count as `{}`, an empty `host` string does not count, and a `hosts` list counts
      whenever it is present, even when empty. */
  predicate SpecifiesHosts(options: Option<ClientOptions>)
  {
    && options.Some?
    && ((options.value.host.Some? && options.value.host.value != "") || options.value.hosts.Some?)
  }

  /** The interval stored for the background liveness check: the requested one, raised to the
      default when it is shorter. */
  function ClampInterval(requested: int): (interval: int)
    ensures interval >= DefaultPingInterval && interval >= requested
    ensures interval == requested || interval == DefaultPingInterval
  {
    if requested < DefaultPingInterval then DefaultPingInterval else requested
  }

  /** How a liveness probe of the search cluster ended. */
  datatype Probe<+R, +E> = Resolved(response: R) | Rejected(error: E)
  {
    /** The probe's error, if it failed. */
    function Failure(): (failure: Option<E>)
      ensures failure.Some? <==> Rejected?
      ensures Rejected? ==> failure.value == error
    {
      if Rejected? then Some(error) else None
    }
  }

  class ElasticClient<E> {
    /** Whether the last probe that changed the state succeeded. */
    var isActive: bool
    /** True until the first successful probe. */
    var isInit: bool
    const livenessCheckInterval: int
    const enableLivenessCheck: bool
    /** The `ready` and `down` events emitted so far, oldest first. */
    ghost var events: seq<Event<E>>

    function State(): LivenessState
      reads this
    {
      LivenessState(isActive, isInit)
    }

    /** The flags agree with the events emitted since construction. */
    ghost predicate Valid()
      reads this
    {
      Consistent(State(), events)
    }

    /** Builds a client from options that name a host; `Create` below is the checked entry point.
        The first probe the constructor starts completes later, through `LivenessCheck`. */
    constructor (options: ClientOptions)
      requires SpecifiesHosts(Some(options))
      ensures Valid()
      ensures isActive && isInit && events == []
      ensures livenessCheckInterval == ClampInterval(options.livenessCheckInterval)
      ensures enableLivenessCheck == options.enableLivenessCheck
    {
      isActive := true;
      isInit := true;
      livenessCheckInterval := ClampInterval(options.livenessCheckInterval);
      enableLivenessCheck := options.enableLivenessCheck;
      events := [];
    }

    /** Records the outcome of one probe: `failure` is the probe's error, `None` on success. */
    method ResolvePing(failure: Option<E>)
      requires Valid()
      modifies this
      ensures Valid()
      ensures State() == Resolve(old(State()), failure).next
      ensures events == old(events) + AsLog(Resolve(old(State()), failure).emitted)
    {
      ghost var before := State();
      ResolveKeepsConsistent(before, events, failure);
      if failure.Some? {
        if isActive {
          isActive := false;
          events := events + [Down(failure.value)];
        }
      } else {
        if !isActive || isInit {
          isInit := false;
          isActive := true;
          events := events + [Ready];
        }
      }
    }

    /** An explicit ping: resolves the probe like the background check, then hands the probe's
        response, or its error, back to the caller unchanged. */
    method Ping<R>(probe: Probe<R, E>) returns (result: Probe<R, E>)
      requires Valid()
      modifies this
      ensures Valid()
      ensures result == probe
      ensures State() == Resolve(old(State()), probe.Failure()).next
      ensures events == old(events) + AsLog(Resolve(old(State()), probe.Failure()).emitted)
    {
      match probe
      case Resolved(response) =>
        ResolvePing(None);
        result := Resolved(response);
      case Rejected(error) =>
        ResolvePing(Some(error));
        result := Rejected(error);
    }

    /** The background check, run once by the constructor and then on every timer tick when
        `enableLivenessCheck` is set: resolves the probe and reports nothing to any caller. */
    method LivenessCheck<R>(probe: Probe<R, E>)
      requires Valid()
      modifies this
      ensures Valid()
      ensures State() == Resolve(old(State()), probe.Failure()).next
      ensures events == old(events) + AsLog(Resolve(old(State()), probe.Failure()).emitted)
    {
      match probe
      case Resolved(_) =>
        ResolvePing(None);
      case Rejected(error) =>
        ResolvePing(Some(error));
    }
  }

  /** `new ElasticClient(options)`: throws when no host is given, and otherwise yields a client
      that is active, initialising, and has emitted nothing yet. */
  method Create<E>(options: Option<ClientOptions>) returns (r: Result<ElasticClient<E>, ConfigError>)
    ensures r.Failure? <==> !SpecifiesHosts(options)
    ensures r.Failure? ==> r.error == MustSpecifyHosts
    ensures r.Success? ==> fresh(r.value) && r.value.Valid()
    ensures r.Success? ==> r.value.State() == Initial && r.value.events == []
    ensures r.Success? ==> r.value.livenessCheckInterval == ClampInterval(options.value.livenessCheckInterval)
  {
    if !SpecifiesHosts(options) {
      return Failure(MustSpecifyHosts);
    }
    var client := new ElasticClient(options.value);
    return Success(client);
  }
}
