/**
 The head's four records of one cluster: deployment lists, the manager's replica
 map, the autoscaler's records and the nodes' usage totals. Each operation here is
 one critical section of the Python code, with its partial effects when it raises.
 */
module Cluster {
  import opened Common
  import opened Keys
  import opened Balancer
  import opened Sums

  datatype Deployment = Deployment(name: string, version: string, cpus: int, gpus: int, replicas: seq<ReplicaMsg>)

  datatype Record = Record(avgRequests: real, stamp: nat, cpus: int, gpus: int)

  datatype Cluster = Cluster(
    deployments: map<nat, Deployment>,
    replicaMap: map<string, ReplicaMsg>,
    records: map<string, Record>,
    nodes: map<nat, Usage>)

  // What a node has handed out.
  datatype Usage = Usage(cpus: int, gpus: int)

  // True, False, or an exception that left its partial effects behind.
  datatype Outcome = Done | Refused | Raised

  datatype Content = Content(replicaId: nat, port: string)

  // ---------- operations ----------

  function Upsert(c: Cluster, d: nat, name: string, version: string, cpus: int, gpus: int): Cluster {
    var replicas := if d in c.deployments then c.deployments[d].replicas else [];
    c.(deployments := c.deployments[d := Deployment(name, version, cpus, gpus, replicas)])
  }

  function Entry(w: nat, content: Content, address: string): ReplicaMsg {
    ReplicaMsg(Key(w, content.replicaId), address + ":" + content.port, "RUNNING")
  }

  // Appends one replica to a list that exists, and files it in both maps.
  function AddOne(c: Cluster, d: nat, e: ReplicaMsg, cpus: int, gpus: int): Cluster
    requires d in c.deployments
  {
    var dep := c.deployments[d];
    c.(deployments := c.deployments[d := dep.(replicas := dep.replicas + [e])],
       replicaMap := c.replicaMap[e.id := e],
       records := c.records[e.id := Record(0.0, 0, cpus, gpus)])
  }

  function Entries(w: nat, contents: seq<Content>, address: string): (es: seq<ReplicaMsg>) {
    seq(|contents|, i requires 0 <= i < |contents| => Entry(w, contents[i], address))
  }

  function AddEach(c: Cluster, d: nat, es: seq<ReplicaMsg>, cpus: int, gpus: int): (c': Cluster)
    requires d in c.deployments
    ensures d in c'.deployments
  {
    if es == [] then c
    else AddOne(AddEach(c, d, es[..|es| - 1], cpus, gpus), d, es[|es| - 1], cpus, gpus)
  }

  function Use(c: Cluster, w: nat, cpus: int, gpus: int): Cluster
    requires w in c.nodes
  {
    c.(nodes := c.nodes[w := Usage(c.nodes[w].cpus + cpus, c.nodes[w].gpus + gpus)])
  }

  // Usage is charged once for the whole call.
  function Add(c: Cluster, d: nat, w: nat, contents: seq<Content>, cpus: int, gpus: int, address: string)
    : (Cluster, Outcome)
  {
    if d !in c.deployments then (c, Refused)
    else
      var c' := AddEach(c, d, Entries(w, contents, address), cpus, gpus);
      if w in c'.nodes then (Use(c', w, cpus, gpus), Done) else (c', Raised)
  }

  // Python's list.remove.
  function RemoveFirst(es: seq<ReplicaMsg>, e: ReplicaMsg): seq<ReplicaMsg> {
    if es == [] then [] else if es[0] == e then es[1..] else [es[0]] + RemoveFirst(es[1..], e)
  }

  // The map entry goes first; the rest happens only if the named deployment lists it.
  function Remove(c: Cluster, d: nat, r: nat, w: nat): (Cluster, Outcome) {
    var key := Key(w, r);
    var c1 := c.(replicaMap := c.replicaMap - {key});
    if key in c.replicaMap && d in c.deployments && c.replicaMap[key] in c.deployments[d].replicas then
      var dep := c.deployments[d];
      var c2 := c1.(deployments := c.deployments[d := dep.(replicas := RemoveFirst(dep.replicas, c.replicaMap[key]))]);
      if key !in c.records then (c2, Raised)
      else
        var c3 := c2.(records := c.records - {key});
        if w !in c.nodes then (c3, Raised)
        else (Use(c3, w, -c.records[key].cpus, -c.records[key].gpus), Done)
    else (c1, Refused)
  }

  function LoadMetrics(c: Cluster, r: nat, w: nat, avg: real, stamp: nat): Cluster {
    var key := Key(w, r);
    if key in c.records then c.(records := c.records[key := c.records[key].(avgRequests := avg, stamp := stamp)]) else c
  }

  function AddNode(c: Cluster, w: nat): Cluster {
    c.(nodes := c.nodes[w := Usage(0, 0)])
  }

  // What the head publishes: deployments by id.
  type Table = map<nat, DeploymentMsg>

  function RoutingTable(c: Cluster): Table {
    map d | d in c.deployments :: DeploymentMsg(d, c.deployments[d].name, c.deployments[d].replicas)
  }

  // ---------- agreement ----------

  predicate Lists(c: Cluster, d: nat, e: ReplicaMsg) {
    d in c.deployments && e in c.deployments[d].replicas
  }

  ghost predicate UniqueInLists(c: Cluster) {
    && (forall d :: d in c.deployments ==> UniqueMsgs(c.deployments[d].replicas))
    && (forall d, d', e, e' :: Lists(c, d, e) && Lists(c, d', e') && e.id == e'.id ==> d == d')
  }

  // The map holds exactly the listed replicas, under their ids.
  ghost predicate Mapped(c: Cluster) {
    && (forall d, e :: Lists(c, d, e) ==> e.id in c.replicaMap && c.replicaMap[e.id] == e)
    && (forall key :: key in c.replicaMap ==> c.replicaMap[key].id == key && exists d :: Lists(c, d, c.replicaMap[key]))
  }

  // Every record is of a mapped replica on a registered node, and vice versa.
  ghost predicate Placed(c: Cluster) {
    && c.records.Keys == c.replicaMap.Keys
    && (forall key :: key in c.records ==> WorkerOf(key).Some? && WorkerOf(key).value in c.nodes)
  }

  // What a recorded replica uses of node `n`.
  function CpusOn(n: nat): (string, Record) -> int {
    (key: string, rec: Record) => if WorkerOf(key) == Some(n) then rec.cpus else 0
  }

  function GpusOn(n: nat): (string, Record) -> int {
    (key: string, rec: Record) => if WorkerOf(key) == Some(n) then rec.gpus else 0
  }

  // What all recorded replicas of node `n` use together.
  ghost function Total(rs: map<string, Record>, n: nat): Usage {
    Usage(Sum(rs, CpusOn(n)), Sum(rs, GpusOn(n)))
  }

  ghost predicate Charged(c: Cluster) {
    forall n :: n in c.nodes ==> c.nodes[n] == Total(c.records, n)
  }

  ghost predicate Filed(c: Cluster) {
    UniqueInLists(c) && Mapped(c)
  }

  // All four structures tell the same story.
  ghost predicate Agree(c: Cluster) {
    Filed(c) && Placed(c) && Charged(c)
  }

  lemma WorkerOfKey(w: nat, r: nat)
    ensures WorkerOf(Key(w, r)) == Some(w)
  {
    KeyRoundTrip(w, r);
  }
}
