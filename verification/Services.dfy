/** The two services of a Jenkins, whose labels and selectors share one map object with the resource metadata. */
module Services {
  import opened Common

  type Labels = map<string, string>

  /** A Go map object: whoever holds it sees every write to it. */
  class LabelMap {
    var entries: Labels

    constructor (entries: Labels)
      ensures this.entries == entries
    {
      this.entries := entries;
    }
  }

  datatype Port = Port(port: int, nodePort: int)

  /** The service part of a spec. */
  datatype Config = Config(
    annotations: Labels, labels: Labels, kind: string, port: int, nodePort: int, loadBalancerIP: string, ranges: seq<string>)

  /** A service as the API server stores it. */
  datatype Stored = Stored(
    labels: Option<Labels>, selector: Labels, annotations: Labels, kind: string, ports: seq<Port>,
    loadBalancerIP: string, ranges: seq<string>)

  /** A service in memory: its label and selector maps are objects. */
  datatype Service = Service(
    labels: LabelMap?, selector: LabelMap?, annotations: Labels, kind: string, ports: seq<Port>,
    loadBalancerIP: string, ranges: seq<string>)

  datatype Failure = ApiError | NilMapWrite

  function HTTPServiceName(jenkins: string): string
  {
    "jenkins-" + jenkins
  }

  function JNLPServiceName(jenkins: string): string
  {
    "jenkins-" + jenkins + "-jnlp"
  }

  function ResourceLabels(jenkins: string): Labels
  {
    map["app" := "jenkins", "jenkins-cr" := jenkins]
  }

  /** The labels of two instances never agree: each says the name of its own, beside the common application label. */
  lemma LabelsTellInstances(a: string, b: string)
    ensures ResourceLabels(a) == ResourceLabels(b) <==> a == b
    ensures ResourceLabels(a) == map["app" := "jenkins", "jenkins-cr" := a]
    ensures a != b ==> forall pod: Labels | Selects(ResourceLabels(a), pod) :: !Selects(ResourceLabels(b), pod)
  {
    assert ResourceLabels(a)["jenkins-cr"] == a && ResourceLabels(b)["jenkins-cr"] == b;
  }

  /** A selector matches a pod that carries all its labels. */
  predicate Selects(selector: Labels, pod: Labels)
  {
    forall k | k in selector :: k in pod && pod[k] == selector[k]
  }

  /** The first port carries the configured numbers; a node port of zero leaves the one that is there. */
  function UpdatedPorts(ports: seq<Port>, config: Config): (r: seq<Port>)
    ensures r != [] && r[0].port == config.port && r[1..] == if ports == [] then [] else ports[1..]
    ensures r[0].nodePort ==
            if config.nodePort != 0 then config.nodePort else if ports == [] then 0 else ports[0].nodePort
  {
    var ps := if ports == [] then [Port(0, 0)] else ports;
    ps[0 := Port(config.port, if config.nodePort != 0 then config.nodePort else ps[0].nodePort)]
  }

  /** The fields taken from the configuration. */
  predicate Configured(ports: seq<Port>, config: Config, r: Stored)
  {
    && r.annotations == config.annotations && r.kind == config.kind && r.loadBalancerIP == config.loadBalancerIP
    && r.ranges == config.ranges && r.ports == UpdatedPorts(ports, config)
  }

  lemma MergeStep(before: Labels, labels: Labels, todo: set<string>, key: string)
    requires key in todo && todo <= labels.Keys
    ensures (before + (labels - todo))[key := labels[key]] == before + (labels - (todo - {key}))
  {
  }

  method SetLabels(target: LabelMap, labels: Labels)
    modifies target
    ensures target.entries == old(target.entries) + labels
  {
    var todo := labels.Keys;
    ghost var before := target.entries;
    while todo != {}
      invariant todo <= labels.Keys && target.entries == before + (labels - todo)
      decreases |todo|
    {
      var key :| key in todo;
      MergeStep(before, labels, todo, key);
      target.entries := target.entries[key := labels[key]];
      todo := todo - {key};
    }
    assert labels - {} == labels;
  }

  /** Writes the configured labels into the label map of the service, whoever shares it. */
  method UpdateService(actual: Service, config: Config) returns (r: Result<Service, Failure>)
    modifies if actual.labels != null then {actual.labels} else {}
    ensures r.Err? <==> actual.labels == null && config.labels != map[]
    ensures r.Err? ==> r.error == NilMapWrite
    ensures actual.labels != null ==> actual.labels.entries == old(actual.labels.entries) + config.labels
    ensures r.Ok? ==>
              && r.value == actual.(annotations := config.annotations, kind := config.kind,
                                    loadBalancerIP := config.loadBalancerIP, ranges := config.ranges,
                                    ports := UpdatedPorts(actual.ports, config))
  {
    if actual.labels == null {
      if config.labels != map[] {
        return Err(NilMapWrite);
      }
    } else {
      SetLabels(actual.labels, config.labels);
    }
    r := Ok(actual.(annotations := config.annotations, kind := config.kind, loadBalancerIP := config.loadBalancerIP,
                    ranges := config.ranges, ports := UpdatedPorts(actual.ports, config)));
  }

  /** What is sent to the API server. */
  function Serialized(s: Service): Stored
    requires s.selector != null
    reads s.labels, s.selector
  {
    Stored(if s.labels == null then None else Some(s.labels.entries), s.selector.entries, s.annotations, s.kind, s.ports,
           s.loadBalancerIP, s.ranges)
  }

  /** The selector a service gets, and what becomes of the shared map, when the service is reconciled. */
  function Shared(shared: Labels, existed: bool, config: Config): Labels
  {
    if existed then shared else shared + config.labels
  }

  class ServiceReconciler {
    var store: map<string, Stored>
    var calls: nat
    const failing: nat -> bool

    constructor (store: map<string, Stored>, failing: nat -> bool)
      ensures this.store == store && this.failing == failing
    {
      this.store := store;
      this.failing := failing;
      calls := 0;
    }

    /** One of the API calls made since `from` has failed. */
    ghost predicate Disturbed(from: nat)
      reads this
    {
      exists k | from < k <= calls :: failing(k)
    }

    /** Decoding makes new map objects. */
    method Get(name: string) returns (err: bool, found: Option<Service>)
      modifies this`calls
      ensures calls == old(calls) + 1 && (err ==> failing(calls))
      ensures !err ==> (found.Some? <==> name in store)
      ensures !err && found.Some? ==>
                && found.value.selector != null && fresh(found.value.selector) && Serialized(found.value) == store[name]
                && (found.value.labels != null ==> fresh(found.value.labels) && found.value.labels != found.value.selector)
    {
      calls := calls + 1;
      if failing(calls) {
        return true, None;
      }
      if name !in store {
        return false, None;
      }
      var s := store[name];
      var selector := new LabelMap(s.selector);
      var labels: LabelMap? := null;
      if s.labels.Some? {
        labels := new LabelMap(s.labels.value);
      }
      return false, Some(Service(labels, selector, s.annotations, s.kind, s.ports, s.loadBalancerIP, s.ranges));
    }

    method Put(name: string, s: Service, create: bool) returns (err: bool)
      requires s.selector != null
      modifies this`calls, this`store
      ensures calls == old(calls) + 1 && (err ==> failing(calls) || create == (name in store))
      ensures store == if err then old(store) else old(store)[name := Serialized(s)]
      ensures !err ==> (create <==> name !in old(store))
    {
      calls := calls + 1;
      if failing(calls) || create == (name in store) {
        return true;
      }
      store := store[name := Serialized(s)];
      err := false;
    }

    /**
     * Creates or updates one service. The selector is whatever the shared map holds; when the service has to be
     * created that map also takes the configured labels, because the new service's labels are the same object.
     */
    method CreateService(meta: LabelMap, name: string, config: Config) returns (r: Result<(), Failure>)
      modifies this`calls, this`store, meta
      ensures calls >= old(calls) && (r == Err(ApiError) ==> Disturbed(old(calls)))
      ensures forall n | n != name :: (n in store <==> n in old(store)) && (n in store ==> store[n] == old(store)[n])
      ensures r.Ok? ==>
                var existed := name in old(store);
                && meta.entries == Shared(old(meta.entries), existed, config)
                && name in store && store[name].selector == meta.entries
                && Configured(if existed then old(store)[name].ports else [], config, store[name])
                && store[name].labels == (if !existed then Some(meta.entries)
                                          else if old(store)[name].labels.None? then None
                                          else Some(old(store)[name].labels.value + config.labels))
                && (existed && old(store)[name].labels.None? ==> config.labels == map[])
      ensures r == Err(NilMapWrite) ==>
                name in old(store) && old(store)[name].labels.None? && config.labels != map[] && store == old(store)
    {
      var err, found := Get(name);
      if err {
        return Err(ApiError);
      }
      var service: Service;
      if found.None? {
        var created := UpdateService(Service(meta, meta, map[], "", [], "", []), config);
        service := created.value;
        err := Put(name, service, true);
        if err {
          return Err(ApiError);
        }
      } else {
        service := found.value;
      }
      service := service.(selector := meta);
      var updated := UpdateService(service, config);
      if updated.Err? {
        return Err(NilMapWrite);
      }
      err := Put(name, updated.value, false);
      if err {
        return Err(ApiError);
      }
      SharedTwice(old(meta.entries), config);
      r := Ok(());
    }

    /** The service steps of one reconcile, with the metadata object made for it. */
    method EnsureServicesArePresent(jenkins: string, http: Config, jnlp: Config) returns (r: Result<(), Failure>)
      modifies this`calls, this`store
      ensures r == Err(ApiError) ==> Disturbed(old(calls))
      ensures r.Ok? ==>
                && HTTPServiceName(jenkins) in store && JNLPServiceName(jenkins) in store
                && store[HTTPServiceName(jenkins)].selector ==
                   Shared(ResourceLabels(jenkins), HTTPServiceName(jenkins) in old(store), http)
                && store[JNLPServiceName(jenkins)].selector ==
                   Shared(Shared(ResourceLabels(jenkins), HTTPServiceName(jenkins) in old(store), http),
                          JNLPServiceName(jenkins) in old(store), jnlp)
      ensures r.Ok? ==>
                (SelectorsAgree(store, jenkins) <==>
                   Harmless(HTTPServiceName(jenkins) in old(store), ResourceLabels(jenkins), http) &&
                   Harmless(JNLPServiceName(jenkins) in old(store), ResourceLabels(jenkins), jnlp))
    {
      NamesDiffer(jenkins);
      AgreeIff(ResourceLabels(jenkins), HTTPServiceName(jenkins) in store, http, JNLPServiceName(jenkins) in store, jnlp);
      var meta := new LabelMap(ResourceLabels(jenkins));
      r := CreateService(meta, HTTPServiceName(jenkins), http);
      if r.Err? {
        return;
      }
      r := CreateService(meta, JNLPServiceName(jenkins), jnlp);
    }
  }

  lemma SharedTwice(shared: Labels, config: Config)
    ensures shared + config.labels + config.labels == shared + config.labels
  {
  }

  lemma NamesDiffer(jenkins: string)
    ensures HTTPServiceName(jenkins) != JNLPServiceName(jenkins)
  {
    assert |JNLPServiceName(jenkins)| == |HTTPServiceName(jenkins)| + 5;
  }

  /**
   * Services of two instances share a name if and only if it is the first one's HTTP service and the other is called
   * like it without "-jnlp" at the end: then its JNLP service is the same object.
   */
  lemma ServiceNamesCollideIff(a: string, b: string)
    ensures HTTPServiceName(a) == "jenkins-" + a && JNLPServiceName(b) == "jenkins-" + b + "-jnlp"
    ensures HTTPServiceName(a) == JNLPServiceName(b) <==> a == b + "-jnlp"
    ensures HTTPServiceName(a) == HTTPServiceName(b) <==> a == b
    ensures JNLPServiceName(a) == JNLPServiceName(b) <==> a == b
  {
    var n := |"jenkins-"|;
    assert HTTPServiceName(a)[n..] == a && HTTPServiceName(b)[n..] == b;
    assert JNLPServiceName(b)[n..] == b + "-jnlp" && JNLPServiceName(a)[n..] == a + "-jnlp";
    assert JNLPServiceName(b) == "jenkins-" + (b + "-jnlp");
    if JNLPServiceName(a) == JNLPServiceName(b) {
      assert (a + "-jnlp")[..|a|] == a && (b + "-jnlp")[..|b|] == b;
    }
  }

  /** Both selectors are the labels the deployment selects its pods by and puts on them. */
  predicate SelectorsAgree(store: map<string, Stored>, jenkins: string)
  {
    && HTTPServiceName(jenkins) in store && store[HTTPServiceName(jenkins)].selector == ResourceLabels(jenkins)
    && JNLPServiceName(jenkins) in store && store[JNLPServiceName(jenkins)].selector == ResourceLabels(jenkins)
  }

  /** The service exists, or its configured labels add nothing to the labels of the deployment. */
  predicate Harmless(existed: bool, base: Labels, config: Config)
  {
    existed || forall k | k in config.labels :: k in base && base[k] == config.labels[k]
  }

  lemma KeptIff(base: Labels, existed: bool, config: Config)
    ensures Shared(base, existed, config) == base <==> Harmless(existed, base, config)
  {
    if !existed && Shared(base, existed, config) == base {
      forall k | k in config.labels ensures k in base && base[k] == config.labels[k] {
        assert k in base + config.labels && (base + config.labels)[k] == config.labels[k];
      }
    }
  }

  /**
   * Both selectors equal the deployment's labels if and only if each service either existed or had nothing to add
   * to them: what the first service adds stays in the map the second one uses.
   */
  lemma AgreeIff(base: Labels, first: bool, http: Config, second: bool, jnlp: Config)
    ensures var mid := Shared(base, first, http);
            mid == base && Shared(mid, second, jnlp) == base <==> Harmless(first, base, http) && Harmless(second, base, jnlp)
  {
    KeptIff(base, first, http);
    KeptIff(base, second, jnlp);
  }

  /** One label of its own is enough to cut a new service off from the pods, and the next new one with it. */
  lemma CreationBreaksSelector(base: Labels, config: Config, key: string, next: Config)
    requires key in config.labels && key !in base
    ensures var mid := Shared(base, false, config);
            mid != base && forall existed :: Shared(mid, existed, next) != base
  {
    assert key in Shared(base, false, config);
    assert forall existed :: key in Shared(Shared(base, false, config), existed, next);
  }
}
