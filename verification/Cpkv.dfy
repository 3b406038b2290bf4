/** The value schemas and names shared by the KV buckets (internal/cpkv). */
module Cpkv {
  const GLOBAL_SCOPE := "_global"

  /** One KEYS row, stored under the key's current hash. */
  datatype KeyEntry = KeyEntry(
    id: string,
    org: string,
    project: string,
    name: string,
    allow: seq<string>,
    rateLimitRPM: int,
    monthlyTokenBudget: int)

  /** One ALIASES row, stored under "<scope>/<name>". */
  datatype AliasEntry = AliasEntry(target: string, params: map<string, string>)

  /** One BUDGETS row, stored under the key's stable id. */
  datatype BudgetEntry = BudgetEntry(used: int, budget: int, exceeded: bool, month: string)

  /** How one KV call went: a failed call may still have taken effect. */
  datatype KvOutcome = Success | FailedApplied | FailedLost

  /** A KV bucket with History 1: the current value of every key. */
  class KvBucket<V> {
    var content: map<string, V>

    constructor ()
      ensures content == map[]
    {
      content := map[];
    }

    method Put(key: string, value: V, outcome: KvOutcome) returns (ok: bool)
      modifies this
      ensures ok == outcome.Success?
      ensures content == if outcome.FailedLost? then old(content) else old(content)[key := value]
    {
      if !outcome.FailedLost? {
        content := content[key := value];
      }
      ok := outcome.Success?;
    }

    method Delete(key: string, outcome: KvOutcome) returns (ok: bool)
      modifies this
      ensures ok == outcome.Success?
      ensures content == if outcome.FailedLost? then old(content) else old(content) - {key}
    {
      if !outcome.FailedLost? {
        content := content - {key};
      }
      ok := outcome.Success?;
    }
  }
}
