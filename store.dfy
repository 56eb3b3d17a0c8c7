/** The store the handlers receive: `getState()` and `dispatch(action)`. */
module StoreModel {
  import opened Types

  /** `state` is the snapshot `getState()` returns while one handler runs;
      `log` is every action passed to `dispatch`, in order. */
  class Store {
    const state: DiagramState
    var log: seq<Action>

    constructor (s: DiagramState)
      ensures state == s && log == []
    {
      state := s;
      log := [];
    }

    method Dispatch(a: Action)
      modifies this
      ensures log == old(log) + [a]
    {
      log := log + [a];
    }
  }
}
