/** Nodes that pull newer trees from one another while a master publishes new ones. A refresh takes four steps
    (ask, the server reads its version, the server reads its data, install), and refreshes interleave freely. */
module Replication {
  import opened Options

  const MASTER_NODE: nat := 0

  /** The version a tree carries, and the order of versions. */
  datatype Versions<!T, !V> = Versions(of: T -> V, before: (V, V) -> bool)

  ghost predicate IsOrder<T, V(!new)>(vs: Versions<T, V>) {
    && (forall a :: !vs.before(a, a))
    && (forall a, b, c :: vs.before(a, b) && vs.before(b, c) ==> vs.before(a, c))
  }

  predicate AtMost<T, V(==)>(vs: Versions<T, V>, a: V, b: V) {
    a == b || vs.before(a, b)
  }

  datatype Refresh<T, V> =
    | Asking(node: nat, server: nat, local: V)
    | Promised(node: nat, server: nat, local: V, newest: V)
    | Answered(node: nat, local: V, newest: V, data: Option<T>)

  /** `published` remembers every version there ever was. */
  datatype Net<T, V> = Net(trees: map<nat, T>, published: map<V, T>, refreshes: map<nat, Refresh<T, V>>)

  datatype NetStep<T> =
    | Publish(tree: T)
    | Ask(id: nat, node: nat, server: nat)
    | ReadVersion(id: nat)
    | ReadData(id: nat)
    | Install(id: nat)
    | GiveUp(id: nat)

  predicate CanStep<T, V(==)>(vs: Versions<T, V>, s: Net<T, V>, step: NetStep<T>) {
    match step
    case Publish(tree) => MASTER_NODE in s.trees && vs.before(vs.of(s.trees[MASTER_NODE]), vs.of(tree))
    case Ask(id, node, server) => id !in s.refreshes && node in s.trees && server in s.trees && node != MASTER_NODE
    case ReadVersion(id) => id in s.refreshes && s.refreshes[id].Asking? && s.refreshes[id].server in s.trees
    case ReadData(id) => id in s.refreshes && s.refreshes[id].Promised? && s.refreshes[id].server in s.trees
    case Install(id) => id in s.refreshes && s.refreshes[id].Answered?
    case GiveUp(id) => id in s.refreshes
  }

  /** The data is promised only for a node that has an older version. */
  function Heard<T, V>(vs: Versions<T, V>, r: Refresh<T, V>, newest: V): Refresh<T, V>
    requires r.Asking?
  {
    if vs.before(r.local, newest) then Promised(r.node, r.server, r.local, newest)
      else Answered(r.node, r.local, newest, None)
  }

  function Stepped<T, V(==)>(vs: Versions<T, V>, s: Net<T, V>, step: NetStep<T>): Net<T, V>
    requires CanStep(vs, s, step)
  {
    match step
    case Publish(tree) => s.(trees := s.trees[MASTER_NODE := tree], published := s.published[vs.of(tree) := tree])
    case Ask(id, node, server) => s.(refreshes := s.refreshes[id := Asking(node, server, vs.of(s.trees[node]))])
    case ReadVersion(id) =>
      s.(refreshes := s.refreshes[id := Heard(vs, s.refreshes[id], vs.of(s.trees[s.refreshes[id].server]))])
    case ReadData(id) =>
      var r := s.refreshes[id];
      s.(refreshes := s.refreshes[id := Answered(r.node, r.local, r.newest, Some(s.trees[r.server]))])
    case Install(id) =>
      var r := s.refreshes[id];
      s.(trees := if vs.before(r.local, r.newest) && r.data.Some? then s.trees[r.node := r.data.value] else s.trees,
         refreshes := s.refreshes - {id})
    case GiveUp(id) => s.(refreshes := s.refreshes - {id})
  }

  // What every step keeps.

  ghost predicate Published<T, V>(vs: Versions<T, V>, s: Net<T, V>, tree: T) {
    vs.of(tree) in s.published && s.published[vs.of(tree)] == tree
  }

  /** The data is there whenever the node will install it, and it is a published tree. */
  ghost predicate RefreshFits<T, V>(vs: Versions<T, V>, s: Net<T, V>, r: Refresh<T, V>) {
    && r.node in s.trees && r.node != MASTER_NODE
    && (!r.Answered? ==> r.server in s.trees)
    && (r.Promised? ==> vs.before(r.local, r.newest))
    && (r.Answered? && vs.before(r.local, r.newest) ==> r.data.Some?)
    && (r.Answered? && r.data.Some? ==> Published(vs, s, r.data.value))
  }

  ghost predicate HistoryFits<T, V(!new)>(vs: Versions<T, V>, s: Net<T, V>)
    requires MASTER_NODE in s.trees
  {
    forall v :: v in s.published ==> vs.of(s.published[v]) == v && AtMost(vs, v, vs.of(s.trees[MASTER_NODE]))
  }

  ghost predicate Coherent<T, V(!new)>(vs: Versions<T, V>, s: Net<T, V>) {
    && MASTER_NODE in s.trees
    && HistoryFits(vs, s)
    && (forall n :: n in s.trees ==> Published(vs, s, s.trees[n]))
    && (forall id :: id in s.refreshes ==> RefreshFits(vs, s, s.refreshes[id]))
  }

  lemma PublishKeeps<T, V(!new)>(vs: Versions<T, V>, s: Net<T, V>, tree: T)
    requires IsOrder(vs) && Coherent(vs, s) && CanStep(vs, s, Publish(tree))
    ensures Coherent(vs, Stepped(vs, s, Publish(tree)))
    ensures vs.of(tree) !in s.published
  {}

  lemma StepKeepsCoherent<T, V(!new)>(vs: Versions<T, V>, s: Net<T, V>, step: NetStep<T>)
    requires IsOrder(vs) && Coherent(vs, s) && CanStep(vs, s, step)
    ensures Coherent(vs, Stepped(vs, s, step))
  {
    if step.Publish? {
      PublishKeeps(vs, s, step.tree);
    } else {
      var t := Stepped(vs, s, step);
      assert t.published == s.published;
      forall id | id in t.refreshes ensures RefreshFits(vs, t, t.refreshes[id]) {
        if id in s.refreshes { assert RefreshFits(vs, s, s.refreshes[id]); }
      }
      forall n | n in t.trees ensures Published(vs, t, t.trees[n]) {
        assert Published(vs, s, s.trees[n]);
        if step.Install? { assert RefreshFits(vs, s, s.refreshes[step.id]); }
      }
    }
  }

  lemma RefreshLeavesMaster<T, V(!new)>(vs: Versions<T, V>, s: Net<T, V>, step: NetStep<T>)
    requires Coherent(vs, s) && CanStep(vs, s, step) && !step.Publish?
    ensures var t := Stepped(vs, s, step);
      t.published == s.published && MASTER_NODE in t.trees && t.trees[MASTER_NODE] == s.trees[MASTER_NODE]
  {}

  // Versions rise unless a refresh installs what it was given before another refresh of its node installed.

  /** What the refresh knows of its node still holds, and what it was given is no older than it was promised. */
  ghost predicate RefreshIsCurrent<T, V>(vs: Versions<T, V>, s: Net<T, V>, r: Refresh<T, V>) {
    && r.node in s.trees && r.local == vs.of(s.trees[r.node])
    && (r.Promised? ==> r.server in s.trees && AtMost(vs, r.newest, vs.of(s.trees[r.server])))
    && (r.Answered? && r.data.Some? ==> AtMost(vs, r.newest, vs.of(r.data.value)))
  }

  /** No node's version is lower in `t` than in `s`. */
  ghost predicate Rises<T, V>(vs: Versions<T, V>, s: Net<T, V>, t: Net<T, V>) {
    forall n :: n in s.trees ==> n in t.trees && AtMost(vs, vs.of(s.trees[n]), vs.of(t.trees[n]))
  }

  lemma RisesOn<T, V(!new)>(vs: Versions<T, V>, s: Net<T, V>, t: Net<T, V>, u: Net<T, V>)
    requires IsOrder(vs) && Rises(vs, s, t) && Rises(vs, t, u)
    ensures Rises(vs, s, u)
  {}

  ghost predicate RisesAt<T, V>(vs: Versions<T, V>, nets: seq<Net<T, V>>, i: nat)
    requires i + 1 < |nets|
  {
    Rises(vs, nets[i], nets[i + 1])
  }

  lemma {:induction false} RisesAlong<T, V(!new)>(vs: Versions<T, V>, nets: seq<Net<T, V>>, i: nat, j: nat)
    requires IsOrder(vs) && i <= j < |nets|
    requires forall k: nat :: i <= k < j ==> RisesAt(vs, nets, k)
    ensures Rises(vs, nets[i], nets[j])
    decreases j
  {
    if i < j {
      RisesAlong(vs, nets, i, j - 1);
      assert RisesAt(vs, nets, j - 1);
      RisesOn(vs, nets[i], nets[j - 1], nets[j]);
    }
  }

  /** The `i`-th move of a run is a step, or something that leaves the nodes alone. */
  ghost predicate MoveAt<T, V(!new)>(vs: Versions<T, V>, nets: seq<Net<T, V>>, moves: seq<Option<NetStep<T>>>, i: nat)
    requires i < |moves| && |nets| == |moves| + 1
  {
    match moves[i]
    case None => nets[i + 1] == nets[i]
    case Some(step) => CanStep(vs, nets[i], step) && nets[i + 1] == Stepped(vs, nets[i], step)
  }

  ghost predicate Moves<T, V(!new)>(vs: Versions<T, V>, nets: seq<Net<T, V>>, moves: seq<Option<NetStep<T>>>) {
    && |nets| == |moves| + 1
    && (forall i: nat :: i < |moves| ==> MoveAt(vs, nets, moves, i))
    && (forall net :: net in nets ==> Coherent(vs, net))
    && (forall id :: id in nets[0].refreshes ==> RefreshIsCurrent(vs, nets[0], nets[0].refreshes[id]))
  }

  predicate UnderWay<T, V>(nets: seq<Net<T, V>>, id: nat, node: nat, i: nat)
    requires i < |nets|
  {
    id in nets[i].refreshes && nets[i].refreshes[id].node == node
  }

  /** At move `k` another refresh of the node installs a tree. */
  predicate InstallsAt<T(==), V(==)>(nets: seq<Net<T, V>>, moves: seq<Option<NetStep<T>>>, id: nat, node: nat, k: nat)
    requires k < |moves| && |nets| == |moves| + 1
  {
    && moves[k].Some? && moves[k].value.Install? && moves[k].value.id != id
    && UnderWay(nets, moves[k].value.id, node, k)
    && nets[k + 1].trees != nets[k].trees
  }

  /** Refresh `id` is under way before move `m`, and was so when another refresh of its node installed a tree. */
  ghost predicate Overtaken<T, V>(nets: seq<Net<T, V>>, moves: seq<Option<NetStep<T>>>, id: nat, node: nat, m: nat)
    requires m <= |moves| && |nets| == |moves| + 1
  {
    exists k: nat :: k < m && InstallsAt(nets, moves, id, node, k) && forall i: nat :: k <= i <= m ==>
      UnderWay(nets, id, node, i)
  }

  lemma OvertakenStill<T, V>(nets: seq<Net<T, V>>, moves: seq<Option<NetStep<T>>>, id: nat, node: nat, m: nat)
    requires m < |moves| && |nets| == |moves| + 1 && Overtaken(nets, moves, id, node, m)
      && UnderWay(nets, id, node, m + 1)
    ensures Overtaken(nets, moves, id, node, m + 1)
  {
    var k: nat :| k < m && InstallsAt(nets, moves, id, node, k) && forall i: nat :: k <= i <= m ==>
      UnderWay(nets, id, node, i);
    assert InstallsAt(nets, moves, id, node, k);
  }

  lemma OvertakenNow<T, V>(nets: seq<Net<T, V>>, moves: seq<Option<NetStep<T>>>, id: nat, node: nat, m: nat)
    requires m < |moves| && |nets| == |moves| + 1 && InstallsAt(nets, moves, id, node, m)
    requires UnderWay(nets, id, node, m) && UnderWay(nets, id, node, m + 1)
    ensures Overtaken(nets, moves, id, node, m + 1)
  {}

  /** A step that raises no version at least leaves every node's tree alone, but for an install that is not current. */
  lemma CurrentStepRises<T, V(!new)>(vs: Versions<T, V>, s: Net<T, V>, step: NetStep<T>)
    requires IsOrder(vs) && Coherent(vs, s) && CanStep(vs, s, step)
    requires step.Install? ==> RefreshIsCurrent(vs, s, s.refreshes[step.id])
    ensures Rises(vs, s, Stepped(vs, s, step))
  {
    if step.Install? { assert RefreshFits(vs, s, s.refreshes[step.id]); }
  }

  /** A refresh whose node does not move stays current while the others rise. */
  lemma StaysCurrent<T, V(!new)>(vs: Versions<T, V>, s: Net<T, V>, t: Net<T, V>, r: Refresh<T, V>)
    requires IsOrder(vs) && RefreshIsCurrent(vs, s, r) && Rises(vs, s, t) && t.trees[r.node] == s.trees[r.node]
    ensures RefreshIsCurrent(vs, t, r)
  {}

  /** A refresh under way after a step is new, or was under way before and is current unless its node moved. */
  lemma StaysCurrentOver<T, V(!new)>(vs: Versions<T, V>, s: Net<T, V>, step: NetStep<T>, id: nat)
    requires IsOrder(vs) && Coherent(vs, s) && CanStep(vs, s, step) && Rises(vs, s, Stepped(vs, s, step))
    requires id in Stepped(vs, s, step).refreshes && (id in s.refreshes ==> RefreshIsCurrent(vs, s, s.refreshes[id]))
    ensures var t := Stepped(vs, s, step); var r := t.refreshes[id];
      && (id in s.refreshes ==> s.refreshes[id].node == r.node)
      && (RefreshIsCurrent(vs, t, r) || (id in s.refreshes && step.Install? && step.id != id
                                         && s.refreshes[step.id].node == r.node && t.trees != s.trees))
  {
    var t := Stepped(vs, s, step);
    if id in s.refreshes {
      assert RefreshFits(vs, s, s.refreshes[id]);
      if t.refreshes[id] == s.refreshes[id] && t.trees[s.refreshes[id].node] == s.trees[s.refreshes[id].node] {
        StaysCurrent(vs, s, t, s.refreshes[id]);
      }
    }
  }

  ghost predicate CurrentOrOvertaken<T, V>(vs: Versions<T, V>, nets: seq<Net<T, V>>, moves: seq<Option<NetStep<T>>>,
                                           id: nat, m: nat)
    requires m <= |moves| && |nets| == |moves| + 1 && id in nets[m].refreshes
  {
    var r := nets[m].refreshes[id];
    RefreshIsCurrent(vs, nets[m], r) || Overtaken(nets, moves, id, r.node, m)
  }

  /** Until the first node falls, every refresh is current or has been overtaken. */
  lemma {:induction false} RefreshesStandAt<T, V(!new)>(vs: Versions<T, V>, nets: seq<Net<T, V>>,
                                                 moves: seq<Option<NetStep<T>>>, m: nat, id: nat)
    requires IsOrder(vs) && Moves(vs, nets, moves) && m <= |moves| && id in nets[m].refreshes
    requires forall i: nat :: i < m ==> RisesAt(vs, nets, i)
    ensures CurrentOrOvertaken(vs, nets, moves, id, m)
    decreases m
  {
    if m > 0 {
      assert MoveAt(vs, nets, moves, m - 1) && RisesAt(vs, nets, m - 1) && nets[m - 1] in nets;
      if id in nets[m - 1].refreshes {
        RefreshesStandAt(vs, nets, moves, m - 1, id);
        StandsNext(vs, nets, moves, m - 1, id);
      } else {
        StaysCurrentOver(vs, nets[m - 1], moves[m - 1].value, id);
      }
    }
  }

  lemma StandsNext<T, V(!new)>(vs: Versions<T, V>, nets: seq<Net<T, V>>, moves: seq<Option<NetStep<T>>>, m: nat,
                        id: nat)
    requires IsOrder(vs) && Moves(vs, nets, moves) && m < |moves| && MoveAt(vs, nets, moves, m) && RisesAt(vs, nets, m)
    requires Coherent(vs, nets[m]) && id in nets[m].refreshes && CurrentOrOvertaken(vs, nets, moves, id, m)
      && id in nets[m + 1].refreshes
    ensures CurrentOrOvertaken(vs, nets, moves, id, m + 1)
  {
    var r := nets[m].refreshes[id];
    assert nets[m + 1].refreshes[id].node == r.node;
    assert UnderWay(nets, id, r.node, m) && UnderWay(nets, id, r.node, m + 1);
    if Overtaken(nets, moves, id, r.node, m) {
      OvertakenStill(nets, moves, id, r.node, m);
    } else if moves[m].Some? {
      StaysCurrentOver(vs, nets[m], moves[m].value, id);
      if !RefreshIsCurrent(vs, nets[m + 1], nets[m + 1].refreshes[id]) {
        assert InstallsAt(nets, moves, id, r.node, m);
        OvertakenNow(nets, moves, id, r.node, m);
      }
    }
  }

  /** The first move of a run that takes any node back is an install by a refresh that was overtaken: since it asked,
      another refresh of the same node has installed a tree. */
  lemma FallIsOvertaken<T, V(!new)>(vs: Versions<T, V>, nets: seq<Net<T, V>>, moves: seq<Option<NetStep<T>>>, m: nat)
    requires IsOrder(vs) && Moves(vs, nets, moves) && m < |moves|
    requires (forall i: nat :: i < m ==> RisesAt(vs, nets, i)) && !RisesAt(vs, nets, m)
    ensures moves[m].Some? && moves[m].value.Install?
    ensures var id := moves[m].value.id;
      id in nets[m].refreshes && Overtaken(nets, moves, id, nets[m].refreshes[id].node, m)
  {
    assert MoveAt(vs, nets, moves, m) && nets[m] in nets;
    if moves[m].Some? {
      var step := moves[m].value;
      if step.Install? { RefreshesStandAt(vs, nets, moves, m, step.id); }
      if !step.Install? || RefreshIsCurrent(vs, nets[m], nets[m].refreshes[step.id]) {
        CurrentStepRises(vs, nets[m], step);
      }
    }
  }

  ghost predicate Undisturbed<T, V>(nets: seq<Net<T, V>>, moves: seq<Option<NetStep<T>>>, m: nat)
    requires m < |moves| && |nets| == |moves| + 1
  {
    moves[m].Some? && moves[m].value.Install? ==>
      var id := moves[m].value.id; id in nets[m].refreshes && !Overtaken(nets, moves, id, nets[m].refreshes[id].node, m)
  }

  /** So as long as no install was overtaken, every node's version only rises. */
  lemma {:induction false} RisesUndisturbed<T, V(!new)>(vs: Versions<T, V>, nets: seq<Net<T, V>>,
                                                 moves: seq<Option<NetStep<T>>>, n: nat)
    requires IsOrder(vs) && Moves(vs, nets, moves) && n <= |moves|
    requires forall m: nat :: m < n ==> Undisturbed(nets, moves, m)
    ensures forall m: nat :: m < n ==> RisesAt(vs, nets, m)
    decreases n
  {
    if n > 0 {
      RisesUndisturbed(vs, nets, moves, n - 1);
      assert Undisturbed(nets, moves, n - 1);
      if !RisesAt(vs, nets, n - 1) { FallIsOvertaken(vs, nets, moves, n - 1); }
    }
  }

  // That is so if no node refreshes twice at a time.

  predicate Serial<T, V>(s: Net<T, V>, step: NetStep<T>) {
    step.Ask? ==> forall id :: id in s.refreshes ==> s.refreshes[id].node != step.node
  }

  predicate OneEach<T, V>(s: Net<T, V>) {
    forall i, j :: i in s.refreshes && j in s.refreshes && s.refreshes[i].node == s.refreshes[j].node ==> i == j
  }

  predicate SerialMove<T, V>(nets: seq<Net<T, V>>, moves: seq<Option<NetStep<T>>>, i: nat)
    requires i < |moves| && |nets| == |moves| + 1
  {
    moves[i].Some? ==> Serial(nets[i], moves[i].value)
  }

  lemma {:induction false} StaysOneEach<T, V(!new)>(vs: Versions<T, V>, nets: seq<Net<T, V>>,
                                             moves: seq<Option<NetStep<T>>>, n: nat)
    requires Moves(vs, nets, moves) && n <= |moves| && OneEach(nets[0]) && forall i: nat :: i < n ==>
      SerialMove(nets, moves, i)
    ensures OneEach(nets[n])
    decreases n
  {
    if n > 0 {
      StaysOneEach(vs, nets, moves, n - 1);
      assert MoveAt(vs, nets, moves, n - 1) && SerialMove(nets, moves, n - 1);
    }
  }

  lemma SerialIsUndisturbed<T, V(!new)>(vs: Versions<T, V>, nets: seq<Net<T, V>>, moves: seq<Option<NetStep<T>>>,
                                 m: nat)
    requires Moves(vs, nets, moves) && m < |moves| && OneEach(nets[0]) && forall i: nat :: i < |moves| ==>
      SerialMove(nets, moves, i)
    ensures Undisturbed(nets, moves, m)
  {
    assert MoveAt(vs, nets, moves, m);
    if moves[m].Some? && moves[m].value.Install? {
      var id := moves[m].value.id;
      var node := nets[m].refreshes[id].node;
      forall k: nat | k < m && InstallsAt(nets, moves, id, node, k) ensures !UnderWay(nets, id, node, k) {
        StaysOneEach(vs, nets, moves, k);
      }
    }
  }

  // Two refreshes of one node at a time.

  ghost predicate Reaches<T, V(!new)>(vs: Versions<T, V>, s: Net<T, V>, steps: seq<NetStep<T>>, t: Net<T, V>)
    decreases |steps|
  {
    if steps == [] then s == t
    else CanStep(vs, s, steps[0]) && Reaches(vs, Stepped(vs, s, steps[0]), steps[1..], t)
  }

  lemma {:induction false} ReachesOn<T, V(!new)>(vs: Versions<T, V>, s: Net<T, V>, one: seq<NetStep<T>>, t: Net<T, V>,
                                          two: seq<NetStep<T>>, u: Net<T, V>)
    requires Reaches(vs, s, one, t) && Reaches(vs, t, two, u)
    ensures Reaches(vs, s, one + two, u)
    decreases |one|
  {
    if one == [] {
      assert one + two == two;
    } else {
      ReachesOn(vs, Stepped(vs, s, one[0]), one[1..], t, two, u);
      assert (one + two)[1..] == one[1..] + two;
    }
  }

  /** An undisturbed refresh of a node that is behind is given the master's tree. */
  lemma Served<T, V(!new)>(vs: Versions<T, V>, s: Net<T, V>, node: nat, id: nat)
    returns (steps: seq<NetStep<T>>, t: Net<T, V>)
    requires MASTER_NODE in s.trees && node in s.trees && node != MASTER_NODE && id !in s.refreshes
    requires vs.before(vs.of(s.trees[node]), vs.of(s.trees[MASTER_NODE]))
    ensures Reaches(vs, s, steps, t)
    ensures t == s.(refreshes := s.refreshes[id :=
      Answered(node, vs.of(s.trees[node]), vs.of(s.trees[MASTER_NODE]), Some(s.trees[MASTER_NODE]))])
  {
    var ask, version, data := Ask(id, node, MASTER_NODE), ReadVersion(id), ReadData(id);
    var s1 := Stepped(vs, s, ask);
    var s2 := Stepped(vs, s1, version);
    t := Stepped(vs, s2, data);
    assert Reaches(vs, s, [ask], s1);
    assert Reaches(vs, s1, [version], s2);
    assert Reaches(vs, s2, [data], t);
    ReachesOn(vs, s, [ask], s1, [version], s2);
    steps := [ask] + [version] + [data];
    ReachesOn(vs, s, [ask] + [version], s2, [data], t);
  }

  /** One refresh asks first and is given the master's tree, then the master publishes a newer tree, and a second
      refresh of the same node installs that one. When the first installs now, the node goes back. */
  lemma OverlapGoesBack<T, V(!new)>(vs: Versions<T, V>, s: Net<T, V>, node: nat, first: nat, second: nat, newer: T)
      returns (steps: seq<NetStep<T>>, t: Net<T, V>)
    requires IsOrder(vs) && MASTER_NODE in s.trees && node in s.trees && node != MASTER_NODE
    requires first != second && first !in s.refreshes && second !in s.refreshes
    requires vs.before(vs.of(s.trees[node]), vs.of(s.trees[MASTER_NODE])) && CanStep(vs, s, Publish(newer))
    ensures Reaches(vs, s, steps, t) && CanStep(vs, t, Install(first))
    ensures node in t.trees && node in Stepped(vs, t, Install(first)).trees
    ensures vs.before(vs.of(Stepped(vs, t, Install(first)).trees[node]), vs.of(t.trees[node]))
  {
    var before, s1 := Served(vs, s, node, first);
    var s2 := Stepped(vs, s1, Publish(newer));
    assert Reaches(vs, s1, [Publish(newer)], s2);
    ReachesOn(vs, s, before, s1, [Publish(newer)], s2);
    var after, s3 := Served(vs, s2, node, second);
    ReachesOn(vs, s, before + [Publish(newer)], s2, after, s3);
    t := Stepped(vs, s3, Install(second));
    assert Reaches(vs, s3, [Install(second)], t);
    steps := before + [Publish(newer)] + after + [Install(second)];
    ReachesOn(vs, s, before + [Publish(newer)] + after, s3, [Install(second)], t);
    assert t.trees[node] == newer && t.refreshes[first] == s1.refreshes[first];
  }
}
