/** A set of locks that are taken without blocking, one for each key. */
module KeyMutexes {

  class KeyMutex {
    // The keys held; the values of the map in the program carry no information.
    var kv: set<string>

    constructor ()
      ensures kv == {}
    {
      kv := {};
    }

    // Succeeds exactly when the key was free, and then the key is held; nothing else changes.
    method TryLock(key: string) returns (locked: bool)
      modifies this
      ensures locked <==> key !in old(kv)
      ensures kv == old(kv) + {key}
    {
      if key in kv {
        return false;
      }
      kv := kv + {key};
      return true;
    }

    // Releases the key, whoever holds it.
    method Unlock(key: string)
      modifies this
      ensures kv == old(kv) - {key}
    {
      kv := kv - {key};
    }
  }
}
