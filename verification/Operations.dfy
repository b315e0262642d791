/** Operation records and the context manager that closes them. */
module Operations {
  import opened Common

  /** `V` is the type of metadata entries, `E` the type of exceptions. */
  class Operation<K(==), V, E> {
    var started: bool
    var ended: bool
    var success: bool
    var error: Option<E>
    var metadata: map<K, V>

    constructor ()
      ensures !started && !ended && success && error == None && metadata == map[]
    {
      started, ended, success, error, metadata := false, false, true, None, map[];
    }

    method AddMetadata(key: K, value: V)
      modifies this`metadata
      ensures metadata == old(metadata)[key := value]
    {
      metadata := metadata[key := value];
    }

    method SetError(e: E)
      modifies this`success, this`error
      ensures !success && error == Some(e)
    {
      success, error := false, Some(e);
    }

    method End(ok: bool, e: Option<E>)
      modifies this`ended, this`success, this`error
      ensures ended && success == (ok && e.None?)
      ensures error == if e.Some? then e else old(error)
    {
      ended, success := true, ok;
      if e.Some? {
        SetError(e.value);
      }
    }

    /** `OperationContext.__enter__`. */
    method Enter()
      modifies this`started
      ensures started
    {
      started := true;
    }

    /** `OperationContext.__exit__`: the record is a success exactly when nothing was raised. */
    method Exit(raised: Option<E>)
      modifies this`ended, this`success, this`error
      ensures ended && success == raised.None?
      ensures error == if raised.Some? then raised else old(error)
    {
      End(raised.None?, raised);
    }
  }
}
