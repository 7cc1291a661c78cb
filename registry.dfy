/** The command and name registry (slotomania/__init__.py): three
    name-to-class dictionaries filled by insert-if-absent, the automatic
    registration of a Command subclass that defines `resolve`, and a
    command's authenticate / validate / resolve dispatch. */
module Commands {
  import opened Errors

  /** A class as the registry sees it: its `__name__`, whether it defines
      `resolve`, its `ContextValidator` (absent when None) and
      `require_authentication`. */
  datatype PyClass = PyClass(name: string, hasResolve: bool, contextValidator: Option<PyClass>,
                             requireAuthentication: bool)

  /** The request a command is built with: absent for `None`. */
  datatype Request = Request(userIsAuthenticated: bool)

  /** `Registry`: the class-level dictionaries, updated in place. */
  class Registry {
    var interfaces: map<string, PyClass>
    var functions: map<string, PyClass>
    var commands: map<string, PyClass>

    constructor()
      ensures interfaces == map[] && functions == map[] && commands == map[]
    {
      interfaces := map[];
      functions := map[];
      commands := map[];
    }

    /** `register_command(name)(cls)`: an AssertionError, changing nothing,
        when the name is taken; otherwise adds `name -> cls` and returns
        `cls`. */
    method RegisterCommand(name: string, cls: PyClass) returns (r: Result<PyClass>)
      modifies this
      ensures name in old(commands) ==> r == Err(AssertionError(""))
                                        && commands == old(commands)
      ensures name !in old(commands) ==> r == Ok(cls) && commands == old(commands)[name := cls]
      ensures functions == old(functions) && interfaces == old(interfaces)
    {
      if name in commands {
        return Err(AssertionError(""));
      }
      commands := commands[name := cls];
      return Ok(cls);
    }

    /** `register_function(name)(cls)`, the same rule over `functions`. */
    method RegisterFunction(name: string, cls: PyClass) returns (r: Result<PyClass>)
      modifies this
      ensures name in old(functions) ==> r == Err(AssertionError(""))
                                         && functions == old(functions)
      ensures name !in old(functions) ==> r == Ok(cls) && functions == old(functions)[name := cls]
      ensures commands == old(commands) && interfaces == old(interfaces)
    {
      if name in functions {
        return Err(AssertionError(""));
      }
      functions := functions[name := cls];
      return Ok(cls);
    }

    /** Every interface is filed under its own class name. */
    predicate InterfacesByName()
      reads this
    {
      forall n :: n in interfaces ==> interfaces[n].name == n
    }

    /** `register_interface(cls)`: keyed by the class's own name. */
    method RegisterInterface(cls: PyClass) returns (r: Result<PyClass>)
      modifies this
      ensures old(InterfacesByName()) ==> InterfacesByName()
      ensures cls.name in old(interfaces) ==> r == Err(AssertionError(""))
                                              && interfaces == old(interfaces)
      ensures cls.name !in old(interfaces) ==> r == Ok(cls) && interfaces == old(interfaces)[cls.name := cls]
      ensures commands == old(commands) && functions == old(functions)
    {
      if cls.name in interfaces {
        return Err(AssertionError(""));
      }
      interfaces := interfaces[cls.name := cls];
      return Ok(cls);
    }

    /** `Command.__init_subclass__`: validate, then, for a class defining
        `resolve`, register it as a command and its validator as a function,
        both under the class name. A clash in `functions` leaves the command
        registered. */
    method InitSubclass(cls: PyClass) returns (r: Result<()>)
      modifies this
      ensures ValidateClass(cls).Err? ==> r == ValidateClass(cls) && unchanged(this)
      ensures !cls.hasResolve ==> r == Ok(()) && unchanged(this)
      ensures cls.hasResolve && ValidateClass(cls).Ok? ==>
                interfaces == old(interfaces)
                && (cls.name in old(commands) ==> r.Err? && commands == old(commands) && functions == old(functions))
                && (cls.name !in old(commands) ==>
                      commands == old(commands)[cls.name := cls]
                      && (cls.name in old(functions) ==> r.Err? && functions == old(functions))
                      && (cls.name !in old(functions) ==>
                            r == Ok(()) && functions == old(functions)[cls.name := cls.contextValidator.value]))
    {
      r := ValidateClass(cls);
      if r.Err? {
        return;
      }
      if cls.hasResolve {
        var registered := RegisterCommand(cls.name, cls);
        if registered.Err? {
          return Err(registered.error);
        }
        if cls.contextValidator.Some? {
          var validator := RegisterFunction(cls.name, cls.contextValidator.value);
          if validator.Err? {
            return Err(validator.error);
          }
        }
      }
      return Ok(());
    }
  }

  /** `validate_class`: a class defining `resolve` must have a truthy
      `ContextValidator`. */
  function ValidateClass(cls: PyClass): (r: Result<()>)
    ensures r.Err? <==> cls.hasResolve && cls.contextValidator.None?
    ensures r.Err? ==> r.error.AssertionError?
  {
    if cls.hasResolve && cls.contextValidator.None? then Err(AssertionError("You forgot to define ContextValidator"))
    else Ok(())
  }

  /** `authenticate`: reads the request's user only when authentication is
      required; a missing request is then an AttributeError. */
  function Authenticate(cls: PyClass, request: Option<Request>): (r: Result<()>)
    ensures r == Err(NotAuthenticated) <==>
            cls.requireAuthentication && request.Some? && !request.value.userIsAuthenticated
    ensures r.Ok? <==> !cls.requireAuthentication || (request.Some? && request.value.userIsAuthenticated)
  {
    if !cls.requireAuthentication then Ok(())
    else if request.None? then Err(AttributeError("user"))
    else if !request.value.userIsAuthenticated then Err(NotAuthenticated)
    else Ok(())
  }

  /** A command instance: its class, `context` and `request`. */
  class Command<Context> {
    const kind: PyClass
    var context: Context
    var request: Option<Request>

    constructor(kind: PyClass, context: Context, request: Option<Request>)
      ensures this.kind == kind && this.context == context && this.request == request
    {
      this.kind := kind;
      this.context := context;
      this.request := request;
    }

    /** `validate_context`: instantiates `ContextValidator` (a TypeError when
        it is None) and loads the context with it. */
    function ValidateContext(load: (PyClass, Context) -> Result<()>): (r: Result<()>)
      reads this
      ensures kind.contextValidator.None? ==> r.Err? && r.error.TypeError?
      ensures kind.contextValidator.Some? ==> r == load(kind.contextValidator.value, context)
    {
      if kind.contextValidator.None? then Err(TypeError("'NoneType' object is not callable"))
      else load(kind.contextValidator.value, context)
    }

    /** `dispatch`: authenticate, then validate the context, then resolve;
        the first step that raises ends it. */
    method Dispatch<State, Out>(load: (PyClass, Context) -> Result<()>, resolve: State -> Result<Out>,
                                state: State) returns (r: Result<Out>)
      ensures Authenticate(kind, request).Err? ==> r == Err(Authenticate(kind, request).error)
      ensures Authenticate(kind, request).Ok? && ValidateContext(load).Err? ==>
                r == Err(ValidateContext(load).error)
      ensures Authenticate(kind, request).Ok? && ValidateContext(load).Ok? ==> r == resolve(state)
    {
      var authenticated := Authenticate(kind, request);
      if authenticated.Err? {
        return Err(authenticated.error);
      }
      var validated := ValidateContext(load);
      if validated.Err? {
        return Err(validated.error);
      }
      r := resolve(state);
    }
  }
}
