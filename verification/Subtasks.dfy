/** Subtask configurations of a problem (src/services/pro.py). */
module Subtasks {
  import opened Collections

  datatype Testdata = Testdata(id: int, systemTest: bool)

  datatype SubtaskConfig = SubtaskConfig(testdatas: seq<Testdata>, deps: set<int>, systemTest: bool)

  /** A dict of subtasks in its iteration order. */
  type Configs = seq<(int, SubtaskConfig)>

  /** The dependency relation: each subtask id with the ids it depends on. */
  function DepMap(configs: Configs): (m: map<int, set<int>>)
    ensures m.Keys == Keys(configs)
  {
    if configs == [] then map[]
    else
      var m := DepMap(configs[..|configs| - 1]);
      assert configs == configs[..|configs| - 1] + [configs[|configs| - 1]];
      m[configs[|configs| - 1].0 := configs[|configs| - 1].1.deps]
  }

  lemma {:induction false} DepMapAt(configs: Configs, i: nat)
    requires DistinctKeys(configs) && i < |configs|
    ensures configs[i].0 in DepMap(configs) && DepMap(configs)[configs[i].0] == configs[i].1.deps
  {
    if i < |configs| - 1 {
      DepMapAt(configs[..|configs| - 1], i);
    }
  }
}
