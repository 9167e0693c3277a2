/** The example controller: what it builds for an Application, and reconciling it against API calls that may fail. */
module Applications {
  import opened Prelude
  import Objects

  const FINALIZER := "finalizer.apis.contrib.kcp.io/no-no-no"

  // ---------- what the reconciler reads ----------

  datatype ObjectName = ObjectName(namespace: string, name: string)

  datatype Status = Status(status: string, connectionString: string)

  datatype Application = Application(
    name: string, annotations: map<string, string>, databaseSecretName: string, status: Status)

  // ---------- what it builds ----------

  datatype Kind = DeploymentKind | ServiceKind | SecretKind

  datatype Key = Key(kind: Kind, namespace: string, name: string)

  datatype EnvVar = Plain(name: string, value: string) | FromSecret(name: string, key: string, secretName: string)

  datatype Container = Container(name: string, image: string, pullPolicy: string, containerPort: int, env: seq<EnvVar>)

  /** servers.json before it is encoded: the server entries by their number. */
  datatype Server = Server(name: string, group: string, host: string)

  datatype Resource =
    | Deployment(name: string, namespace: string, finalizers: seq<string>, replicas: int,
                 matchLabels: map<string, string>, podLabels: map<string, string>, container: Container)
    | Service(name: string, namespace: string, finalizers: seq<string>,
              selector: map<string, string>, port: int, targetPort: int)
    | Secret(name: string, namespace: string, finalizers: seq<string>, data: map<string, map<string, Server>>)

  function GetApplicationDeployment(app: Application, ns: string): Resource {
    Deployment(app.name, ns, [FINALIZER], 1, map["app" := app.name], map["app" := app.name],
      Container("pgadmin", "dpage/pgadmin4:9.1.0", "IfNotPresent", 80, [
        Plain("PGADMIN_DEFAULT_EMAIL", "admin@kcp.io"),
        Plain("PGADMIN_DEFAULT_PASSWORD", "admin"),
        Plain("PGADMIN_PORT", "80"),
        Plain("PGADMIN_SETUP_EMAIL", "admin@kcp.io"),
        Plain("PGADMIN_SETUP_PASSWORD", "admin"),
        Plain("PGADMIN_CONFIG_SERVER_MODE", "False"),
        Plain("PGADMIN_CONFIG_ENHANCED_COOKIE_PROTECTION", "False"),
        FromSecret("PGADMIN_SERVER_JSON_FILE", "servers.json", app.name + "-server")]))
  }

  function GetApplicationService(app: Application, ns: string): Resource {
    Service(app.name, ns, [FINALIZER], map["app" := app.name], 8080, 80)
  }

  function GetServerJson(app: Application): map<string, Server> {
    map["1" := Server(app.name, "Servers", "localhost")]
  }

  function ServerSecret(app: Application, ns: string): Resource {
    Secret(app.name + "-server", ns, [FINALIZER], map["servers.json" := GetServerJson(app)])
  }

  function KeyOf(r: Resource): Key {
    match r
    case Deployment(name, ns, _, _, _, _, _) => Key(DeploymentKind, ns, name)
    case Service(name, ns, _, _, _, _) => Key(ServiceKind, ns, name)
    case Secret(name, ns, _, _) => Key(SecretKind, ns, name)
  }

  type Provider = map<Key, Resource>

  /** The three objects an Application is entitled to. */
  function Desired(app: Application, ns: string): Provider {
    var d, s, x := GetApplicationDeployment(app, ns), GetApplicationService(app, ns), ServerSecret(app, ns);
    map[KeyOf(d) := d, KeyOf(s) := s, KeyOf(x) := x]
  }

  predicate Selects(selector: map<string, string>, labels: map<string, string>) {
    forall k | k in selector :: k in labels && labels[k] == selector[k]
  }

  /**
   The three fit together: deployment and service select the deployment's pods by some label, at least one pod is asked
   for, the service's target is the container's port, every secret reference of the container resolves to the secret's
   entry, which is for the application's server, all three live in the application's cluster and carry the finalizer, and
   the reported command forwards to the service on its port.
   */
  lemma {:induction false} DesiredObjectsFitTogether(app: Application, ns: string)
    ensures var d, s := GetApplicationDeployment(app, ns), GetApplicationService(app, ns);
      && Selects(d.matchLabels, d.podLabels) && Selects(s.selector, d.podLabels)
      && d.matchLabels != map[] && s.selector != map[] && d.replicas >= 1
      && (forall r | r in Desired(app, ns).Values :: r.namespace == ns && FINALIZER in r.finalizers)
      && (forall server | server in GetServerJson(app).Values :: server.name == app.name)
      && s.targetPort == d.container.containerPort
      && Plain("PGADMIN_PORT", "80") in d.container.env
      && (forall e | e in d.container.env && e.FromSecret? ::
            var k := Key(SecretKind, d.namespace, e.secretName);
            k in Desired(app, ns) && Desired(app, ns)[k].Secret? && e.key in Desired(app, ns)[k].data)
      && |Desired(app, ns)| == 3
      && s.port == 8080
      && ReadyStatus(app, ns).status == "Ready"
      && ReadyStatus(app, ns).connectionString == "kubectl port-forward svc/" + s.name + " 8080:8080 -n " + s.namespace
  {
    var d, s, x := GetApplicationDeployment(app, ns), GetApplicationService(app, ns), ServerSecret(app, ns);
    assert "app" in d.matchLabels && "app" in s.selector;
    assert d.container.env[2] == Plain("PGADMIN_PORT", "80");
    assert Desired(app, ns).Keys == {KeyOf(d), KeyOf(s), KeyOf(x)};
  }

  /** Two Applications contend for the same objects exactly when they share name and cluster, whatever their namespaces. */
  lemma {:induction false} ApplicationsShareObjectsIff(a: Application, ns: string, b: Application, ms: string)
    ensures !(Desired(a, ns).Keys !! Desired(b, ms).Keys) <==> a.name == b.name && ns == ms
    ensures a.name == b.name && ns == ms ==> Desired(a, ns) == Desired(b, ms)
  {
    var d := KeyOf(GetApplicationDeployment(a, ns));
    if a.name == b.name && ns == ms {
      assert d in Desired(a, ns).Keys && d in Desired(b, ms).Keys;
    }
    if a.name + "-server" == b.name + "-server" {
      assert a.name == (a.name + "-server")[..|a.name + "-server"| - 7];
      assert b.name == (b.name + "-server")[..|b.name + "-server"| - 7];
    }
  }

  // ---------- reconciling ----------

  /** The API calls of one attempt. */
  datatype Call = GetApplication | GetDatabaseSecret | GetOwned(kind: Kind) | CreateOwned(kind: Kind) | UpdateStatus

  /** A call may fail before it has any effect, or take effect and still be reported as failed. */
  datatype Fault = Fine | Lost | Unacknowledged

  type Faults = Call -> Fault

  datatype Error = CallFailed(call: Call) | SecretNotFound | ClusterLabelNotFound

  datatype Outcome = Outcome(requeue: bool, error: Option<Error>)

  datatype World = World(apps: map<ObjectName, Application>, secrets: set<ObjectName>, provider: Provider)

  /** CreateOrUpdate with a mutation that changes nothing: create the object unless it is there. */
  function CreateIfAbsent(p: Provider, r: Resource, faults: Faults): (Provider, Option<Error>) {
    var kind := KeyOf(r).kind;
    if faults(GetOwned(kind)) != Fine then (p, Some(CallFailed(GetOwned(kind))))
    else if KeyOf(r) in p then (p, None)
    else
      match faults(CreateOwned(kind))
      case Fine => (p[KeyOf(r) := r], None)
      case Lost => (p, Some(CallFailed(CreateOwned(kind))))
      case Unacknowledged => (p[KeyOf(r) := r], Some(CallFailed(CreateOwned(kind))))
  }

  function CreateAll(p: Provider, rs: seq<Resource>, faults: Faults): (Provider, Option<Error>)
    decreases |rs|
  {
    if rs == [] then (p, None)
    else
      var (p', error) := CreateIfAbsent(p, rs[0], faults);
      if error.Some? then (p', error) else CreateAll(p', rs[1..], faults)
  }

  function Steps(app: Application, ns: string): seq<Resource> {
    [GetApplicationDeployment(app, ns), GetApplicationService(app, ns), ServerSecret(app, ns)]
  }

  function ReadyStatus(app: Application, ns: string): Status {
    Status("Ready", "kubectl port-forward svc/" + app.name + " 8080:8080 -n " + ns)
  }

  function ReconcileFound(w: World, req: ObjectName, faults: Faults): (World, Outcome)
    requires req in w.apps
  {
    var app := w.apps[req];
    if faults(GetDatabaseSecret) != Fine then (w, Outcome(true, Some(CallFailed(GetDatabaseSecret))))
    else if ObjectName(req.namespace, app.databaseSecretName) !in w.secrets then (w, Outcome(true, Some(SecretNotFound)))
    else if Objects.CLUSTER_ANNOTATION !in app.annotations then (w, Outcome(false, Some(ClusterLabelNotFound)))
    else
      var ns := app.annotations[Objects.CLUSTER_ANNOTATION];
      var (p, error) := CreateAll(w.provider, Steps(app, ns), faults);
      var w' := w.(provider := p);
      if error.Some? then (w', Outcome(false, error))
      else
        var done := w'.(apps := w.apps[req := app.(status := ReadyStatus(app, ns))]);
        match faults(UpdateStatus)
        case Fine => (done, Outcome(false, None))
        case Lost => (w', Outcome(false, Some(CallFailed(UpdateStatus))))
        case Unacknowledged => (done, Outcome(false, Some(CallFailed(UpdateStatus))))
  }

  /** One attempt. */
  function Attempt(w: World, req: ObjectName, faults: Faults): (World, Outcome) {
    if faults(GetApplication) != Fine then (w, Outcome(false, Some(CallFailed(GetApplication))))
    else if req !in w.apps then (w, Outcome(false, None))
    else ReconcileFound(w, req, faults)
  }

  function Attempts(w: World, req: ObjectName, runs: seq<Faults>): World
    decreases |runs|
  {
    if runs == [] then w else Attempts(Attempt(w, req, runs[0]).0, req, runs[1..])
  }

  // ---------- what attempts can do ----------

  /** `p'` is `p` with some of `d` added where `p` had nothing. */
  ghost predicate Between(p: Provider, p': Provider, d: Provider) {
    p.Keys <= p'.Keys <= p.Keys + d.Keys && forall k :: k in p' ==> p'[k] == (d + p)[k]
  }

  /** Of the resources that were absent, an initial stretch has been created. */
  ghost predicate CreatedInOrder(p: Provider, p': Provider, rs: seq<Resource>) {
    forall i, j :: 0 <= i < j < |rs| && KeyOf(rs[j]) in p' && KeyOf(rs[j]) !in p ==> KeyOf(rs[i]) in p'
  }

  lemma {:induction false} CreateIfAbsentEffect(p: Provider, r: Resource, faults: Faults, d: Provider)
    requires KeyOf(r) in d && d[KeyOf(r)] == r
    ensures var (p', error) := CreateIfAbsent(p, r, faults);
      && Between(p, p', d) && p'.Keys <= p.Keys + {KeyOf(r)} && (error.None? ==> KeyOf(r) in p')
  {
  }

  lemma {:induction false} CreateAllStaysBetween(p: Provider, rs: seq<Resource>, faults: Faults, d: Provider)
    requires forall r | r in rs :: KeyOf(r) in d && d[KeyOf(r)] == r
    ensures var (p', error) := CreateAll(p, rs, faults);
      && Between(p, p', d)
      && (forall k | k in p' && k !in p :: exists i :: 0 <= i < |rs| && KeyOf(rs[i]) == k)
      && (error.None? ==> forall r | r in rs :: KeyOf(r) in p')
    decreases |rs|
  {
    if rs != [] {
      var (p1, error1) := CreateIfAbsent(p, rs[0], faults);
      CreateIfAbsentEffect(p, rs[0], faults, d);
      if error1.None? {
        var p' := CreateAll(p1, rs[1..], faults).0;
        CreateAllStaysBetween(p1, rs[1..], faults, d);
        BetweenTransitive(p, p1, p', d);
        forall k | k in p' && k !in p ensures exists i :: 0 <= i < |rs| && KeyOf(rs[i]) == k {
          if k !in p1 {
            var i :| 0 <= i < |rs[1..]| && KeyOf(rs[1..][i]) == k;
            assert KeyOf(rs[i + 1]) == k;
          } else {
            assert KeyOf(rs[0]) == k;
          }
        }
        assert rs == [rs[0]] + rs[1..];
      } else {
        assert forall k | k in p1 && k !in p :: KeyOf(rs[0]) == k;
      }
    }
  }

  lemma {:induction false} CreateAllInOrder(p: Provider, rs: seq<Resource>, faults: Faults, d: Provider)
    requires forall r | r in rs :: KeyOf(r) in d && d[KeyOf(r)] == r
    requires forall i, j :: 0 <= i < j < |rs| ==> KeyOf(rs[i]) != KeyOf(rs[j])
    ensures CreatedInOrder(p, CreateAll(p, rs, faults).0, rs)
    decreases |rs|
  {
    if rs != [] {
      var (p1, error1) := CreateIfAbsent(p, rs[0], faults);
      CreateIfAbsentEffect(p, rs[0], faults, d);
      if error1.None? {
        var rest, p' := rs[1..], CreateAll(p1, rs[1..], faults).0;
        assert forall i :: 0 <= i < |rest| ==> rest[i] == rs[i + 1];
        CreateAllInOrder(p1, rest, faults, d);
        CreateAllStaysBetween(p1, rest, faults, d);
        forall i, j | 0 <= i < j < |rs| && KeyOf(rs[j]) in p' && KeyOf(rs[j]) !in p ensures KeyOf(rs[i]) in p' {
          if i > 0 {
            assert rest[i - 1] == rs[i] && rest[j - 1] == rs[j];
          }
        }
      }
    }
  }

  /** The Application is there, with its cluster. */
  ghost predicate Known(w: World, req: ObjectName) {
    req in w.apps && Objects.CLUSTER_ANNOTATION in w.apps[req].annotations
  }

  ghost function Entitled(w: World, req: ObjectName): Provider
    requires Known(w, req)
  {
    Desired(w.apps[req], w.apps[req].annotations[Objects.CLUSTER_ANNOTATION])
  }

  ghost function StepsOf(w: World, req: ObjectName): seq<Resource>
    requires Known(w, req)
  {
    Steps(w.apps[req], w.apps[req].annotations[Objects.CLUSTER_ANNOTATION])
  }

  ghost function MadeReady(w: World, req: ObjectName): map<ObjectName, Application>
    requires Known(w, req)
  {
    w.apps[req := w.apps[req].(status := ReadyStatus(w.apps[req], w.apps[req].annotations[Objects.CLUSTER_ANNOTATION]))]
  }

  lemma {:induction false} StepsAreDesired(app: Application, ns: string)
    ensures forall r | r in Steps(app, ns) :: KeyOf(r) in Desired(app, ns) && Desired(app, ns)[KeyOf(r)] == r
    ensures forall k | k in Desired(app, ns) :: exists r | r in Steps(app, ns) :: KeyOf(r) == k
  {
    var rs := Steps(app, ns);
    assert rs[0] in rs && rs[1] in rs && rs[2] in rs;
  }

  /**
   However an attempt ends, it has only added entitled objects that were absent, in order; it has touched nothing but the
   status otherwise, and has set that only if all entitled objects exist; and without an error it has done both.
   */
  lemma {:induction false} AttemptEffect(w: World, req: ObjectName, faults: Faults)
    requires Known(w, req)
    ensures var (w', outcome) := Attempt(w, req, faults); var d := Entitled(w, req);
      && Between(w.provider, w'.provider, d)
      && CreatedInOrder(w.provider, w'.provider, StepsOf(w, req))
      && w'.secrets == w.secrets
      && (w'.apps == w.apps || (w'.apps == MadeReady(w, req) && d.Keys <= w'.provider.Keys))
      && (outcome.error.None? ==> w'.apps == MadeReady(w, req) && d.Keys <= w'.provider.Keys)
  {
    AttemptShape(w, req, faults);
    CreatingEffect(w, req, faults);
  }

  /** For an Application that is gone, or has no cluster, an attempt changes nothing; it is in order only if it is gone. */
  lemma {:induction false} UnknownApplicationIsLeftAlone(w: World, req: ObjectName, faults: Faults)
    requires !Known(w, req)
    ensures var (w', outcome) := Attempt(w, req, faults);
      && w' == w
      && (outcome.error.None? <==> faults(GetApplication) == Fine && req !in w.apps)
  {
  }

  /** Whatever is asked for, no attempt alters what the provider holds, the secrets, or another Application. */
  lemma {:induction false} AttemptAltersNothing(w: World, req: ObjectName, faults: Faults)
    ensures var w' := Attempt(w, req, faults).0;
      && w'.secrets == w.secrets
      && (forall k | k in w.provider :: k in w'.provider && w'.provider[k] == w.provider[k])
      && w'.apps.Keys == w.apps.Keys && (forall a | a in w.apps && a != req :: w'.apps[a] == w.apps[a])
      && (req in w.apps ==> w'.apps[req].(status := w.apps[req].status) == w.apps[req])
  {
    if Known(w, req) {
      AttemptEffect(w, req, faults);
    } else {
      UnknownApplicationIsLeftAlone(w, req, faults);
    }
  }

  lemma {:induction false} AttemptsAlterNothing(w: World, req: ObjectName, runs: seq<Faults>)
    ensures var w' := Attempts(w, req, runs);
      && w'.secrets == w.secrets
      && (forall k | k in w.provider :: k in w'.provider && w'.provider[k] == w.provider[k])
      && w'.apps.Keys == w.apps.Keys && (forall a | a in w.apps && a != req :: w'.apps[a] == w.apps[a])
      && (!Known(w, req) ==> w' == w)
    decreases |runs|
  {
    if runs != [] {
      AttemptAltersNothing(w, req, runs[0]);
      if !Known(w, req) {
        UnknownApplicationIsLeftAlone(w, req, runs[0]);
      }
      AttemptsAlterNothing(Attempt(w, req, runs[0]).0, req, runs[1..]);
    }
  }

  // ---------- exactly what an attempt creates and answers ----------

  /** The step for `r` succeeds: it finds the resource, or creates it and hears so. */
  predicate Passes(p: Provider, faults: Faults, r: Resource) {
    var kind := KeyOf(r).kind;
    faults(GetOwned(kind)) == Fine && (KeyOf(r) in p || faults(CreateOwned(kind)) == Fine)
  }

  predicate PassesUpTo(p: Provider, faults: Faults, rs: seq<Resource>, i: nat)
    requires i <= |rs|
  {
    forall j :: 0 <= j < i ==> Passes(p, faults, rs[j])
  }

  /** The step for `r` leaves the resource there if it was absent. */
  predicate Creates(faults: Faults, r: Resource) {
    faults(GetOwned(KeyOf(r).kind)) == Fine && faults(CreateOwned(KeyOf(r).kind)) != Lost
  }

  predicate Distinct(rs: seq<Resource>) {
    forall i, j :: 0 <= i < j < |rs| ==> KeyOf(rs[i]) != KeyOf(rs[j])
  }

  lemma {:induction false} CreateIfAbsentExactly(p: Provider, r: Resource, faults: Faults)
    ensures var (p', error) := CreateIfAbsent(p, r, faults);
      && p' == (if KeyOf(r) !in p && Creates(faults, r) then p[KeyOf(r) := r] else p)
      && (error.None? <==> Passes(p, faults, r))
  {
  }

  /** A resource is there afterwards exactly if it was before, or all steps before its own succeeded and its own created it. */
  lemma {:induction false} CreateAllExactly(p: Provider, rs: seq<Resource>, faults: Faults)
    requires Distinct(rs)
    ensures var (p', error) := CreateAll(p, rs, faults);
      && (error.None? <==> PassesUpTo(p, faults, rs, |rs|))
      && (forall i :: 0 <= i < |rs| ==>
            (KeyOf(rs[i]) in p' <==> KeyOf(rs[i]) in p || (PassesUpTo(p, faults, rs, i) && Creates(faults, rs[i]))))
    decreases |rs|
  {
    if rs != [] {
      var (p1, error1) := CreateIfAbsent(p, rs[0], faults);
      CreateIfAbsentExactly(p, rs[0], faults);
      if error1.None? {
        assert forall i :: 0 <= i < |rs[1..]| ==> rs[1..][i] == rs[i + 1];
        CreateAllExactly(p1, rs[1..], faults);
        PassingStepsLeaveRest(p, p1, rs, faults);
        FirstStays(p1, rs[1..], faults, KeyOf(rs[0]));
        forall i | 0 < i < |rs|
          ensures KeyOf(rs[i]) in CreateAll(p1, rs[1..], faults).0 <==>
            KeyOf(rs[i]) in p || (PassesUpTo(p, faults, rs, i) && Creates(faults, rs[i]))
        {
          assert rs[i] == rs[1..][i - 1];
        }
      }
    }
  }

  lemma {:induction false} FirstStays(p: Provider, rs: seq<Resource>, faults: Faults, k: Key)
    requires forall i :: 0 <= i < |rs| ==> KeyOf(rs[i]) != k
    ensures k in CreateAll(p, rs, faults).0 <==> k in p
    decreases |rs|
  {
    if rs != [] {
      assert forall i :: 0 <= i < |rs[1..]| ==> rs[1..][i] == rs[i + 1];
      FirstStays(CreateIfAbsent(p, rs[0], faults).0, rs[1..], faults, k);
    }
  }

  /** What the later steps find does not depend on the first one. */
  lemma {:induction false} PassingStepsLeaveRest(p: Provider, p1: Provider, rs: seq<Resource>, faults: Faults)
    requires Distinct(rs) && rs != [] && Passes(p, faults, rs[0]) && (p1 == p || p1 == p[KeyOf(rs[0]) := rs[0]])
    ensures forall i :: 0 < i < |rs| ==> (KeyOf(rs[i]) in p1 <==> KeyOf(rs[i]) in p)
    ensures forall i :: 0 < i <= |rs| ==> (PassesUpTo(p, faults, rs, i) <==> PassesUpTo(p1, faults, rs[1..], i - 1))
  {
    var rest := rs[1..];
    forall i | 0 < i <= |rs| ensures PassesUpTo(p, faults, rs, i) <==> PassesUpTo(p1, faults, rest, i - 1) {
      assert forall j :: 0 < j < |rs| ==> rs[j] == rest[j - 1];
      assert forall j :: 0 <= j < |rest| ==> rest[j] == rs[j + 1];
    }
  }

  /** The attempt gets as far as creating: the Application, its database secret and its cluster are all there. */
  predicate Starts(w: World, req: ObjectName, faults: Faults) {
    && faults(GetApplication) == Fine && req in w.apps
    && faults(GetDatabaseSecret) == Fine && ObjectName(req.namespace, w.apps[req].databaseSecretName) in w.secrets
    && Objects.CLUSTER_ANNOTATION in w.apps[req].annotations
  }

  /**
   Exactly what one attempt does: which of the three objects exist afterwards, whether the status has been written, and
   whether it returns without an error, given which calls fail and how.
   */
  lemma {:induction false} AttemptDoesExactly(w: World, req: ObjectName, faults: Faults)
    requires Known(w, req)
    ensures var (w', outcome) := Attempt(w, req, faults);
            var rs, starts := StepsOf(w, req), Starts(w, req, faults);
      && (forall i :: 0 <= i < |rs| ==>
            (KeyOf(rs[i]) in w'.provider <==>
               KeyOf(rs[i]) in w.provider || (starts && PassesUpTo(w.provider, faults, rs, i) && Creates(faults, rs[i]))))
      && w'.apps == (if starts && PassesUpTo(w.provider, faults, rs, |rs|) && faults(UpdateStatus) != Lost
                     then MadeReady(w, req) else w.apps)
      && (outcome.error.None? <==> starts && PassesUpTo(w.provider, faults, rs, |rs|) && faults(UpdateStatus) == Fine)
  {
    AttemptStages(w, req, faults);
    assert Distinct(StepsOf(w, req));
    CreateAllExactly(w.provider, StepsOf(w, req), faults);
  }

  lemma {:induction false} AttemptStages(w: World, req: ObjectName, faults: Faults)
    requires Known(w, req)
    ensures var (w', outcome) := Attempt(w, req, faults);
            var starts, (p, error) := Starts(w, req, faults), CreateAll(w.provider, StepsOf(w, req), faults);
      && w'.provider == (if starts then p else w.provider)
      && w'.apps == (if starts && error.None? && faults(UpdateStatus) != Lost then MadeReady(w, req) else w.apps)
      && (outcome.error.None? <==> starts && error.None? && faults(UpdateStatus) == Fine)
  {
    var created := CreateAll(w.provider, StepsOf(w, req), faults);
    if Starts(w, req, faults) && created.1.None? {
      assert w.(provider := created.0).apps == w.apps;
      match faults(UpdateStatus)
      case Fine =>
      case Lost =>
      case Unacknowledged =>
    }
  }

  /** An attempt blames only a call that failed, or something that is not there, and asks to be repeated only for the secret. */
  lemma {:induction false} AttemptBlamesRightly(w: World, req: ObjectName, faults: Faults)
    ensures var outcome := Attempt(w, req, faults).1;
            var fetched := faults(GetApplication) == Fine && req in w.apps;
            var secret := fetched && ObjectName(req.namespace, w.apps[req].databaseSecretName) in w.secrets;
      && (outcome.error.Some? && outcome.error.value.CallFailed? ==> faults(outcome.error.value.call) != Fine)
      && (outcome.error == Some(SecretNotFound) <==> fetched && faults(GetDatabaseSecret) == Fine && !secret)
      && (outcome.error == Some(ClusterLabelNotFound) <==>
            fetched && faults(GetDatabaseSecret) == Fine && secret && Objects.CLUSTER_ANNOTATION !in w.apps[req].annotations)
      && (outcome.requeue <==> fetched && (faults(GetDatabaseSecret) != Fine || !secret))
  {
    if Starts(w, req, faults) {
      CreateAllBlamesRightly(w.provider, StepsOf(w, req), faults);
    }
  }

  lemma {:induction false} CreateAllBlamesRightly(p: Provider, rs: seq<Resource>, faults: Faults)
    ensures var error := CreateAll(p, rs, faults).1;
      error.Some? ==> error.value.CallFailed? && faults(error.value.call) != Fine
    decreases |rs|
  {
    if rs != [] {
      CreateAllBlamesRightly(CreateIfAbsent(p, rs[0], faults).0, rs[1..], faults);
    }
  }

  /** An attempt leaves the provider alone or creates, and goes on to the status only after creating everything. */
  lemma {:induction false} AttemptShape(w: World, req: ObjectName, faults: Faults)
    requires Known(w, req)
    ensures var (w', outcome) := Attempt(w, req, faults);
            var (p, error) := CreateAll(w.provider, StepsOf(w, req), faults);
      && w'.secrets == w.secrets
      && (w'.provider == w.provider || w'.provider == p)
      && (w'.apps == w.apps || (w'.apps == MadeReady(w, req) && w'.provider == p && error.None?))
      && (outcome.error.None? ==> w'.apps == MadeReady(w, req) && w'.provider == p && error.None?)
  {
    var created := CreateAll(w.provider, StepsOf(w, req), faults);
    var attempt := Attempt(w, req, faults);
    if attempt.0.apps != w.apps || attempt.1.error.None? {
      assert created.1.None?;
    }
  }

  lemma {:induction false} CreatingEffect(w: World, req: ObjectName, faults: Faults)
    requires Known(w, req)
    ensures var (p, error) := CreateAll(w.provider, StepsOf(w, req), faults);
      && Between(w.provider, p, Entitled(w, req))
      && CreatedInOrder(w.provider, p, StepsOf(w, req))
      && (error.None? ==> Entitled(w, req).Keys <= p.Keys)
  {
    var app := w.apps[req];
    var ns := app.annotations[Objects.CLUSTER_ANNOTATION];
    StepsAreDesired(app, ns);
    CreateAllStaysBetween(w.provider, Steps(app, ns), faults, Desired(app, ns));
    CreateAllInOrder(w.provider, Steps(app, ns), faults, Desired(app, ns));
  }

  lemma {:induction false} BetweenTransitive(p: Provider, p1: Provider, p2: Provider, d: Provider)
    requires Between(p, p1, d) && Between(p1, p2, d)
    ensures Between(p, p2, d)
  {
  }

  /** Any number of attempts, failing where they may, stay between what was there and what is entitled. */
  lemma {:induction false} AttemptsEffect(w: World, req: ObjectName, runs: seq<Faults>)
    requires Known(w, req)
    ensures var w' := Attempts(w, req, runs);
      && Known(w', req) && Entitled(w', req) == Entitled(w, req) && StepsOf(w', req) == StepsOf(w, req)
      && MadeReady(w', req) == MadeReady(w, req) && w'.secrets == w.secrets
      && Between(w.provider, w'.provider, Entitled(w, req))
      && CreatedInOrder(w.provider, w'.provider, StepsOf(w, req))
      && (w'.apps == w.apps || (w'.apps == MadeReady(w, req) && Entitled(w, req).Keys <= w'.provider.Keys))
    decreases |runs|
  {
    if runs != [] {
      var w1, w' := Attempt(w, req, runs[0]).0, Attempts(w, req, runs);
      AttemptEffect(w, req, runs[0]);
      assert MadeReady(w1, req) == MadeReady(w, req);
      AttemptsEffect(w1, req, runs[1..]);
      BetweenTransitive(w.provider, w1.provider, w'.provider, Entitled(w, req));
    }
  }

  /** Over any number of attempts, the service is created only when the deployment is there, the secret only when both are. */
  lemma {:induction false} AttemptsCreateInOrder(w: World, req: ObjectName, runs: seq<Faults>)
    requires Known(w, req)
    ensures var w', app := Attempts(w, req, runs), w.apps[req];
            var ns := app.annotations[Objects.CLUSTER_ANNOTATION];
            var d, s, x := Key(DeploymentKind, ns, app.name), Key(ServiceKind, ns, app.name), Key(SecretKind, ns, app.name + "-server");
      && (s in w'.provider && s !in w.provider ==> d in w'.provider)
      && (x in w'.provider && x !in w.provider ==> d in w'.provider && s in w'.provider)
  {
    AttemptsEffect(w, req, runs);
    var rs := StepsOf(w, req);
    assert KeyOf(rs[0]).kind == DeploymentKind && KeyOf(rs[1]).kind == ServiceKind && KeyOf(rs[2]).kind == SecretKind;
  }

  /**
   Interrupted attempts followed by one that returns without an error leave the provider as it was plus the entitled
   objects that were absent, and the Application ready; and from then on attempts change nothing.
   */
  lemma {:induction false} InterruptedReconciliationConverges(w: World, req: ObjectName, runs: seq<Faults>, last: Faults, more: seq<Faults>)
    requires Known(w, req)
    requires Attempt(Attempts(w, req, runs), req, last).1.error.None?
    ensures var done := Attempt(Attempts(w, req, runs), req, last).0;
      && done == World(MadeReady(w, req), w.secrets, Entitled(w, req) + w.provider)
      && Attempts(done, req, more) == done
  {
    var w1 := Attempts(w, req, runs);
    var done := Attempt(w1, req, last).0;
    AttemptsEffect(w, req, runs);
    AttemptEffect(w1, req, last);
    BetweenTransitive(w.provider, w1.provider, done.provider, Entitled(w, req));
    assert done.provider == Entitled(w, req) + w.provider;
    SettledWorldStays(done, req, more);
  }

  /** Nothing is left to do for the Application. */
  ghost predicate Settled(w: World, req: ObjectName) {
    Known(w, req) && w.apps == MadeReady(w, req) && Entitled(w, req).Keys <= w.provider.Keys
  }

  lemma {:induction false} SettledWorldStays(w: World, req: ObjectName, runs: seq<Faults>)
    requires Settled(w, req)
    ensures Attempts(w, req, runs) == w
    decreases |runs|
  {
    AttemptsEffect(w, req, runs);
    var w' := Attempts(w, req, runs);
    assert w'.provider == w.provider;
  }

  /** An attempt during which no call fails returns without an error exactly when the secret it needs is there. */
  lemma {:induction false} UndisturbedAttemptSucceedsIff(w: World, req: ObjectName, faults: Faults)
    requires Known(w, req) && forall c :: faults(c) == Fine
    ensures Attempt(w, req, faults).1.error.None? <==> ObjectName(req.namespace, w.apps[req].databaseSecretName) in w.secrets
  {
    AttemptDoesExactly(w, req, faults);
  }

  // ---------- the reconciler ----------

  /** Creating three resources is creating one after the other until one fails. */
  lemma {:induction false} CreateAllOfThree(p: Provider, a: Resource, b: Resource, c: Resource, faults: Faults)
    ensures CreateAll(p, [a, b, c], faults) ==
      var (p1, e1) := CreateIfAbsent(p, a, faults);
      if e1.Some? then (p1, e1) else
        var (p2, e2) := CreateIfAbsent(p1, b, faults);
        if e2.Some? then (p2, e2) else CreateIfAbsent(p2, c, faults)
  {
    assert [a, b, c][1..] == [b, c] && [b, c][1..] == [c] && [c][1..] == [];
    var (p1, e1) := CreateIfAbsent(p, a, faults);
    var (p2, e2) := CreateIfAbsent(p1, b, faults);
    assert CreateAll(p2, [c], faults) == CreateIfAbsent(p2, c, faults);
    assert e2.None? ==> CreateAll(p1, [b, c], faults) == CreateAll(p2, [c], faults);
  }

  class ApplicationReconciler {
    var apps: map<ObjectName, Application>
    var secrets: set<ObjectName>
    var provider: Provider

    ghost function View(): World
      reads this
    {
      World(apps, secrets, provider)
    }

    constructor (w: World)
      ensures View() == w
    {
      apps, secrets, provider := w.apps, w.secrets, w.provider;
    }

    method CreateOrUpdate(r: Resource, faults: Faults) returns (error: Option<Error>)
      modifies this`provider
      ensures (provider, error) == CreateIfAbsent(old(provider), r, faults)
    {
      var key := KeyOf(r);
      if faults(GetOwned(key.kind)) != Fine {
        return Some(CallFailed(GetOwned(key.kind)));
      }
      if key in provider {
        return None;
      }
      if faults(CreateOwned(key.kind)) != Lost {
        provider := provider[key := r];
      }
      if faults(CreateOwned(key.kind)) != Fine {
        return Some(CallFailed(CreateOwned(key.kind)));
      }
      return None;
    }

    method Reconcile(req: ObjectName, faults: Faults) returns (outcome: Outcome)
      modifies this
      ensures (View(), outcome) == Attempt(old(View()), req, faults)
    {
      if faults(GetApplication) != Fine {
        return Outcome(false, Some(CallFailed(GetApplication)));
      }
      if req !in apps {
        return Outcome(false, None);
      }
      var app := apps[req];
      if faults(GetDatabaseSecret) != Fine {
        return Outcome(true, Some(CallFailed(GetDatabaseSecret)));
      }
      if ObjectName(req.namespace, app.databaseSecretName) !in secrets {
        return Outcome(true, Some(SecretNotFound));
      }
      if Objects.CLUSTER_ANNOTATION !in app.annotations {
        return Outcome(false, Some(ClusterLabelNotFound));
      }
      var ns := app.annotations[Objects.CLUSTER_ANNOTATION];
      CreateAllOfThree(provider, GetApplicationDeployment(app, ns), GetApplicationService(app, ns), ServerSecret(app, ns), faults);

      var error := CreateOrUpdate(GetApplicationDeployment(app, ns), faults);
      if error.Some? {
        return Outcome(false, error);
      }
      error := CreateOrUpdate(GetApplicationService(app, ns), faults);
      if error.Some? {
        return Outcome(false, error);
      }
      error := CreateOrUpdate(ServerSecret(app, ns), faults);
      if error.Some? {
        return Outcome(false, error);
      }

      if faults(UpdateStatus) != Lost {
        apps := apps[req := app.(status := ReadyStatus(app, ns))];
      }
      if faults(UpdateStatus) != Fine {
        return Outcome(false, Some(CallFailed(UpdateStatus)));
      }
      return Outcome(false, None);
    }
  }
}
