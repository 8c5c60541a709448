/**
 * The handler registry of the mock API setup (class `SetupApi` in
 * src/core/SetupApi.ts): an immutable snapshot of the handlers given at
 * construction and an ordered working list whose front has the highest
 * precedence.  Handler objects are shared by reference between the two
 * lists; the lists themselves are never shared.
 */
module SetupApi {
  import opened Wrappers

  /** The two handler kinds a registry holds. */
  datatype HandlerKind = RequestHandler | WebSocketHandler

  /**
   * A handler object.  Only request handlers carry the `isUsed` property
   * (set outside the registry, which only ever clears it); for a
   * WebSocket handler the field exists here but has no meaning and the
   * registry never touches it.
   */
  class Handler {
    const kind: HandlerKind
    var isUsed: bool

    /** Whether the handler has an `isUsed` property. */
    predicate HasUsedFlag() {
      kind == RequestHandler
    }

    constructor (kind: HandlerKind)
      ensures this.kind == kind && !isUsed
    {
      this.kind := kind;
      isUsed := false;
    }
  }

  /**
   * One argument of a variadic registry call: a handler, or an array of
   * handlers passed by mistake without spreading it.
   */
  datatype Arg = Single(handler: Handler) | Spreadless(items: seq<Handler>)

  /** The configuration error raised by the `invariant` guard. */
  datatype SetupError = InvalidHandlersInput

  /** The guard: no argument may itself be an array. */
  function ValidateHandlers(args: seq<Arg>): (ok: bool)
    ensures ok <==> forall i :: 0 <= i < |args| ==> args[i].Single?
  {
    if args == [] then true else args[0].Single? && ValidateHandlers(args[1..])
  }

  /** The handlers of arguments that passed the guard, in argument order. */
  function Handlers(args: seq<Arg>): (hs: seq<Handler>)
    requires ValidateHandlers(args)
    ensures |hs| == |args|
    ensures forall i :: 0 <= i < |args| ==> hs[i] == args[i].handler
  {
    seq(|args|, i requires 0 <= i < |args| => args[i].handler)
  }

  class SetupApi {
    /** The snapshot taken at construction. */
    var initialHandlers: seq<Handler>
    /** The working list; index 0 has the highest precedence. */
    var currentHandlers: seq<Handler>

    /** Stores the validated handlers as both the snapshot and the working list. */
    constructor Init(handlers: seq<Handler>)
      ensures initialHandlers == handlers && currentHandlers == handlers
    {
      initialHandlers := handlers;
      currentHandlers := handlers;
    }

    /**
     * The constructor of the source: fails with a configuration error when
     * any argument is an array, and otherwise registers the handlers in
     * argument order.
     */
    static method Create(args: seq<Arg>) returns (r: Result<SetupApi, SetupError>)
      ensures r.Failure? <==> exists i :: 0 <= i < |args| && args[i].Spreadless?
      ensures r.Failure? ==> r.error == InvalidHandlersInput
      ensures r.Success? ==> fresh(r.value)
      ensures r.Success? ==>
                ValidateHandlers(args)
                && r.value.initialHandlers == Handlers(args)
                && r.value.currentHandlers == Handlers(args)
    {
      if !ValidateHandlers(args) {
        return Failure(InvalidHandlersInput);
      }
      var api := new SetupApi.Init(Handlers(args));
      return Success(api);
    }

    /**
     * Prepends the given handlers, the first argument ending at the front.
     * On a configuration error the working list is left as it was.
     */
    method Use(args: seq<Arg>) returns (o: Outcome<SetupError>)
      modifies this`currentHandlers
      ensures o.Fail? <==> exists i :: 0 <= i < |args| && args[i].Spreadless?
      ensures o.Fail? ==> o.error == InvalidHandlersInput && currentHandlers == old(currentHandlers)
      ensures o.Pass? ==> ValidateHandlers(args) && currentHandlers == Handlers(args) + old(currentHandlers)
      ensures initialHandlers == old(initialHandlers)
    {
      if !ValidateHandlers(args) {
        return Fail(InvalidHandlersInput);
      }
      currentHandlers := Handlers(args) + currentHandlers;
      return Pass;
    }

    /**
     * Clears the `isUsed` flag of every handler in the working list that has
     * one.  The handler objects are shared with the snapshot, so a handler
     * of the snapshot that is in the working list is cleared too.
     */
    method RestoreHandlers()
      modifies currentHandlers
      ensures currentHandlers == old(currentHandlers)
      ensures initialHandlers == old(initialHandlers)
      ensures forall h :: h in currentHandlers ==> h.isUsed == (old(h.isUsed) && !h.HasUsedFlag())
    {
      var i := 0;
      while i < |currentHandlers|
        invariant 0 <= i <= |currentHandlers|
        invariant forall h :: h in currentHandlers[..i] ==> h.isUsed == (old(h.isUsed) && !h.HasUsedFlag())
        invariant forall h :: h in currentHandlers && h !in currentHandlers[..i] ==> h.isUsed == old(h.isUsed)
      {
        var handler := currentHandlers[i];
        if handler.HasUsedFlag() {
          handler.isUsed := false;
        }
        assert currentHandlers[..i + 1] == currentHandlers[..i] + [handler];
        i := i + 1;
      }
      assert currentHandlers[..i] == currentHandlers;
    }

    /**
     * Replaces the working list with the given handlers, or with a copy of
     * the snapshot when none are given.  The copy is shallow: no handler's
     * `isUsed` flag changes.
     */
    method ResetHandlers(next: seq<Handler>)
      modifies this`currentHandlers
      ensures |next| > 0 ==> currentHandlers == next
      ensures |next| == 0 ==> currentHandlers == initialHandlers
      ensures initialHandlers == old(initialHandlers)
      ensures forall h :: h in currentHandlers ==> h.isUsed == old(h.isUsed)
    {
      currentHandlers := if |next| > 0 then next else initialHandlers;
    }

    /** A read-only copy of the working list, in precedence order. */
    method ListHandlers() returns (hs: seq<Handler>)
      ensures hs == currentHandlers
    {
      hs := currentHandlers;
    }
  }

  /**
   * A client of the registry: prepending with `use`, and the array-misuse
   * guard of the constructor and of `use`.
   */
  method UseSession()
  {
    var a := new Handler(RequestHandler);
    var b := new Handler(WebSocketHandler);
    var c := new Handler(RequestHandler);
    var d := new Handler(RequestHandler);

    var bad := SetupApi.Create([Spreadless([a, b])]);
    assert bad.Failure?;

    var created := SetupApi.Create([Single(a), Single(b)]);
    assert created.Success?;
    var api := created.value;
    var list := api.ListHandlers();
    assert list == [a, b];

    var o := api.Use([Single(c)]);
    assert o.Pass?;
    list := api.ListHandlers();
    assert list == [c, a, b];

    o := api.Use([Single(d), Spreadless([d])]);
    assert o.Fail?;
    list := api.ListHandlers();
    assert list == [c, a, b];
  }

  /**
   * Restoring clears the used flag of every handler in the working list that
   * has one (the request handlers); the snapshot holds the same objects, so
   * its handlers are cleared too.
   */
  method RestoreSession()
  {
    var a := new Handler(RequestHandler);
    var b := new Handler(WebSocketHandler);
    var c := new Handler(RequestHandler);
    var created := SetupApi.Create([Single(a), Single(b)]);
    assert created.Success?;
    var api := created.value;
    var o := api.Use([Single(c)]);
    assert api.currentHandlers == [c, a, b];

    a.isUsed := true;
    c.isUsed := true;
    api.RestoreHandlers();
    assert !a.isUsed && !c.isUsed;
    assert api.initialHandlers == [a, b] && !api.initialHandlers[0].isUsed;
  }

  /** Resetting goes back to the snapshot, or to the given handlers, and clears no flag. */
  method ResetSession()
  {
    var a := new Handler(RequestHandler);
    var b := new Handler(WebSocketHandler);
    var c := new Handler(RequestHandler);
    var d := new Handler(RequestHandler);
    var created := SetupApi.Create([Single(a), Single(b)]);
    assert created.Success?;
    var api := created.value;
    var o := api.Use([Single(c)]);

    a.isUsed := true;
    api.ResetHandlers([]);
    var list := api.ListHandlers();
    assert list == [a, b];
    assert a.isUsed;

    api.ResetHandlers([d]);
    list := api.ListHandlers();
    assert list == [d];
    assert api.initialHandlers == [a, b];
  }
}
