/**
 * The sequential cluster of cars/orchestrator/cluster/sequential_cluster.py: the backend
 * that runs every task in the calling process, so creating, starting, scattering and
 * collecting tasks hand their arguments straight back.
 */
module SequentialCluster {
  import opened Wrappers
  import opened PyValue

  /** The one default of the cluster configuration. */
  const CLUSTER_DEFAULTS: Dict := [("mode", StrObj("sequential"))]

  /** `check_conf`: a copy of conf with `mode` defaulting to "sequential". */
  function CheckConf(conf: Option<Dict>): (r: Dict)
    ensures conf.Some? ==> Keys(conf.value) <= Keys(r)
    ensures forall k :: k in Keys(CLUSTER_DEFAULTS) ==> k in Keys(r)
  {
    Overload(conf, CLUSTER_DEFAULTS)
  }

  /** `mode` is conf's own mode when it has one and "sequential" otherwise; every other entry is kept. */
  lemma CheckConfMode(conf: Option<Dict>, k: string)
    ensures var original := if conf.Some? then conf.value else [];
            Get(CheckConf(conf), k)
            == if k == "mode" then Some(GetOr(original, "mode", StrObj("sequential"))) else Get(original, k)
  {
    assert UniqueKeys(CLUSTER_DEFAULTS) by {
      assert CLUSTER_DEFAULTS[1..] == [];
    }
    assert Keys(CLUSTER_DEFAULTS) == ["mode"] by {
      assert CLUSTER_DEFAULTS[1..] == [];
    }
    OverloadGet(conf, CLUSTER_DEFAULTS, k);
  }

  /** A configuration that went through `check_conf` always names its mode. */
  lemma CheckConfHasMode(conf: Option<Dict>)
    ensures "mode" in Keys(CheckConf(conf))
  {
    CheckConfMode(conf, "mode");
  }

  /**
   * What a delayed call stands for once the sequential cluster has run it: output `index` of
   * the `nout` outputs of `call` (the function together with its arguments).
   */
  datatype Delayed<A> = Output(call: A, index: nat)

  /** `create_task`: the function itself, whatever the number of outputs. */
  function CreateTask<F>(func: F, nout: int): (task: F)
    ensures task == func
  {
    func
  }

  /** `start_tasks`: the task list as given, order included. */
  function StartTasks<T>(taskList: seq<T>): (started: seq<T>)
    ensures |started| == |taskList|
    ensures forall i :: 0 <= i < |started| ==> started[i] == taskList[i]
  {
    taskList
  }

  /** `scatter`: the data as given, broadcast or not. */
  function Scatter<T>(data: T, broadcast: bool): (scattered: T)
    ensures scattered == data
  {
    data
  }

  /** Created tasks do not depend on the number of outputs asked for. */
  lemma CreateTaskIgnoresNout<F>(func: F, n1: int, n2: int)
    ensures CreateTask(func, n1) == CreateTask(func, n2)
  {
  }

  /**
   * `future_iterator`: the generator, run to exhaustion, yields each future of the list once,
   * in list order.
   */
  method FutureIterator<T>(futureList: seq<T>) returns (yielded: seq<T>)
    ensures yielded == futureList
  {
    yielded := [];
    for i := 0 to |futureList|
      invariant yielded == futureList[..i]
    {
      yielded := yielded + [futureList[i]];
    }
  }
}
