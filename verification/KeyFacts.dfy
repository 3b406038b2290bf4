/**
 What the events of a key say of it, read off the log one field at a time, and that the aggregate's
 state and the KEYS fold show just that.
 */
module KeyFacts {
  import opened Wrappers
  import opened Cpkv
  import opened ApiKeys
  import opened EventLog
  import K = KeysProjector

  predicate OfKey(e: Envelope, id: string) {
    e.KeyEnv? && e.id == id
  }

  /** The event that created the key. */
  function Creation(log: Log, id: string): Option<KeyEvent> {
    if log == [] then None
    else
      var e := log[|log| - 1];
      if OfKey(e, id) && e.key.Created? then Some(e.key) else Creation(log[..|log| - 1], id)
  }

  /** Rate limit and budget, as its last creation or limits event gave them. */
  function LastLimits(log: Log, id: string): Option<(int, int)> {
    if log == [] then None
    else
      var e := log[|log| - 1];
      if OfKey(e, id) && e.key.Created? then Some((e.key.rateLimitRpm, e.key.monthlyTokenBudget))
      else if OfKey(e, id) && e.key.LimitsChanged? then Some((e.key.newRpm, e.key.newBudget))
      else LastLimits(log[..|log| - 1], id)
  }

  function LastAllow(log: Log, id: string): Option<seq<string>> {
    if log == [] then None
    else
      var e := log[|log| - 1];
      if OfKey(e, id) && e.key.Created? then Some(e.key.allow)
      else if OfKey(e, id) && e.key.AllowlistChanged? then Some(e.key.newAllow)
      else LastAllow(log[..|log| - 1], id)
  }

  function LastHash(log: Log, id: string): Option<string> {
    if log == [] then None
    else
      var e := log[|log| - 1];
      if OfKey(e, id) && e.key.Created? then Some(e.key.hash)
      else if OfKey(e, id) && e.key.Rotated? then Some(e.key.newHash)
      else LastHash(log[..|log| - 1], id)
  }

  predicate WasDisabled(log: Log, id: string) {
    exists i :: 0 <= i < |log| && OfKey(log[i], id) && log[i].key.Disabled?
  }

  lemma DisabledNext(log: Log, id: string)
    requires log != []
    ensures var n := |log| - 1;
            WasDisabled(log, id) <==> WasDisabled(log[..n], id) || (OfKey(log[n], id) && log[n].key.Disabled?)
  {
    var n := |log| - 1;
    if WasDisabled(log[..n], id) {
      var i :| 0 <= i < n && OfKey(log[..n][i], id) && log[..n][i].key.Disabled?;
      assert OfKey(log[i], id);
    }
    if WasDisabled(log, id) {
      var i :| 0 <= i < |log| && OfKey(log[i], id) && log[i].key.Disabled?;
      assert i < n ==> OfKey(log[..n][i], id);
    }
  }

  /** A key exists iff it was created, and each field is what its last event of the right kind gave it. */
  lemma {:induction false} KeyShowsItsEvents(log: Log, id: string)
    requires ValidLog(log)
    ensures var (s, c) := (KeyState(log, id), Creation(log, id));
            && (s.id != "" <==> c.Some?)
            && (c.None? ==> s == NO_KEY && !WasDisabled(log, id))
            && (c.Some? ==>
                  && c.value.Created? && s.id == id
                  && s.org == c.value.org && s.project == c.value.project && s.name == c.value.name
                  && LastLimits(log, id) == Some((s.rateLimitRpm, s.monthlyTokenBudget))
                  && LastAllow(log, id) == Some(s.allow) && LastHash(log, id) == Some(s.hash)
                  && (s.disabled <==> WasDisabled(log, id)))
  {
    hide WasDisabled, ValidLog;
    if log == [] {
      NoneDisabled(id);
    } else {
      var n := |log| - 1;
      ValidPrefix(log, n);
      KeyShowsItsEvents(log[..n], id);
      DisabledNext(log, id);
      K.KeyEventDecided(log, n);
    }
  }

  lemma NoneDisabled(id: string)
    ensures !WasDisabled([], id)
  {
  }

  /** Created and not disabled. */
  predicate Usable(log: Log, id: string) {
    Creation(log, id).Some? && !WasDisabled(log, id)
  }

  /** The fields of a KEYS entry, as the log has them for the key. */
  predicate Shows(entry: KeyEntry, log: Log, id: string) {
    && Creation(log, id).Some? && Creation(log, id).value.Created?
    && (var c := Creation(log, id).value;
        entry.id == id && entry.org == c.org && entry.project == c.project && entry.name == c.name)
    && LastAllow(log, id) == Some(entry.allow)
    && LastLimits(log, id) == Some((entry.rateLimitRPM, entry.monthlyTokenBudget))
  }

  /**
   KEYS as the fold of a decided log, in terms of its events: every created and not disabled key has
   one entry, under the last hash it was given, and every entry shows such a key field by field.
   */
  lemma FoldShowsEvents(kv: K.Bucket, log: Log)
    requires ValidLog(log) && K.IsImage(kv, log)
    ensures forall id :: Usable(log, id) ==> LastHash(log, id).Some? && LastHash(log, id).value in kv
                                             && kv[LastHash(log, id).value].id == id
    ensures forall hash :: hash in kv ==>
              var id := kv[hash].id; Usable(log, id) && LastHash(log, id) == Some(hash) && Shows(kv[hash], log, id)
  {
    hide KeyState, ValidLog;
    forall id | Usable(log, id)
      ensures LastHash(log, id).Some? && LastHash(log, id).value in kv && kv[LastHash(log, id).value].id == id
    {
      KeyShowsItsEvents(log, id);
      assert K.LiveKey(log, id);
    }
    forall hash | hash in kv
      ensures var id := kv[hash].id; Usable(log, id) && LastHash(log, id) == Some(hash) && Shows(kv[hash], log, id)
    {
      KeyShowsItsEvents(log, kv[hash].id);
      assert K.LiveKey(log, kv[hash].id);
    }
  }
}
