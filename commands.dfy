/** The command layer of src/index.ts: a registry from command names to handlers
    (`registerCommand`, `runCommand`) and the guard that resolves the logged-in user before
    a user command runs (`middlewareLoggedIn`). The handlers' own bodies are outside this
    module; a handler is named by what it is. */
module Commands {
  import opened Common
  import opened Schema
  import opened Queries

  /** The handlers that take the logged-in user as an argument. */
  datatype UserHandler = AddFeed | Follow | Following | Unfollow | Browse

  /** A registered handler: one of the plain handlers, a user handler wrapped by
      `middlewareLoggedIn`, or a member that every JavaScript object inherits (which only
      the lookup as written can find). */
  datatype Handler =
    | Login | Register | Reset | Users | Agg | ListFeeds
    | LoggedIn(inner: UserHandler)
    | Inherited(member: string)

  /** A call of `handler(cmdName, ...args)`. */
  datatype Invocation = Invocation(handler: Handler, cmdName: string, args: seq<string>)

  /** `CommandsRegistry`: a record from names to handlers, filled in place. */
  class CommandsRegistry {
    var handlers: map<string, Handler>

    constructor ()
      ensures handlers == map[]
    {
      handlers := map[];
    }

    /** `registerCommand`: stores the handler under the name, replacing any earlier one. */
    method RegisterCommand(cmdName: string, handler: Handler)
      modifies this
      ensures handlers == old(handlers)[cmdName := handler]
    {
      handlers := handlers[cmdName := handler];
    }

    /** `runCommand`, looking only at the names registered: an unknown name is an error,
        a known one calls the handler stored under it with the arguments. */
    method RunCommand(cmdName: string, args: seq<string>) returns (r: Result<Invocation>)
      ensures r.Err? <==> cmdName !in handlers
      ensures r.Err? ==> r.error == CommandNotFound(cmdName)
      ensures r.Ok? ==> r.value == Invocation(handlers[cmdName], cmdName, args)
    {
      if cmdName !in handlers {
        return Err(CommandNotFound(cmdName));
      }
      return Ok(Invocation(handlers[cmdName], cmdName, args));
    }
  }

  /** The table `main` builds: six plain handlers, five wrapped by `middlewareLoggedIn`. */
  const MainHandlers: map<string, Handler> := map[
    "login" := Login, "register" := Register, "reset" := Reset, "users" := Users,
    "agg" := Agg, "feeds" := ListFeeds,
    "addfeed" := LoggedIn(AddFeed), "follow" := LoggedIn(Follow),
    "following" := LoggedIn(Following), "unfollow" := LoggedIn(Unfollow),
    "browse" := LoggedIn(Browse)]

  /** `main`'s registrations, one `registerCommand` per command. */
  method MainRegistry() returns (registry: CommandsRegistry)
    ensures fresh(registry)
    ensures registry.handlers == MainHandlers
  {
    registry := new CommandsRegistry();
    registry.RegisterCommand("login", Login);
    registry.RegisterCommand("register", Register);
    registry.RegisterCommand("reset", Reset);
    registry.RegisterCommand("users", Users);
    registry.RegisterCommand("agg", Agg);
    registry.RegisterCommand("feeds", ListFeeds);
    registry.RegisterCommand("addfeed", LoggedIn(AddFeed));
    registry.RegisterCommand("follow", LoggedIn(Follow));
    registry.RegisterCommand("following", LoggedIn(Following));
    registry.RegisterCommand("unfollow", LoggedIn(Unfollow));
    registry.RegisterCommand("browse", LoggedIn(Browse));
  }

  /** Registering twice under one name and then running it calls the later handler, and
      a name never registered is not found. */
  method LatestRegistrationWins(cmdName: string, other: string, first: Handler, second: Handler,
                                args: seq<string>) returns (r: Result<Invocation>, missing: Result<Invocation>)
    requires other != cmdName
    ensures r == Ok(Invocation(second, cmdName, args))
    ensures missing == Err(CommandNotFound(other))
  {
    var registry := new CommandsRegistry();
    registry.RegisterCommand(cmdName, first);
    registry.RegisterCommand(cmdName, second);
    r := registry.RunCommand(cmdName, args);
    missing := registry.RunCommand(other, args);
  }

  /** The members of `Object.prototype`, which the record `{}` inherits: its methods, and
      the `__proto__` accessor, whose value is the prototype object itself. */
  const InheritedMembers: set<string> :=
    {"constructor", "hasOwnProperty", "isPrototypeOf", "propertyIsEnumerable",
     "toLocaleString", "toString", "valueOf", "__defineGetter__", "__defineSetter__",
     "__lookupGetter__", "__lookupSetter__", "__proto__"}

  /** Whether calling the value found succeeds in starting a call: everything but the
      prototype object, which is not a function. */
  predicate Callable(h: Handler)
  {
    h != Inherited("__proto__")
  }

  /** `registry[cmdName]` on a plain object: an own entry, else an inherited member. */
  function LookupAsWritten(handlers: map<string, Handler>, cmdName: string): (r: Option<Handler>)
    ensures cmdName in handlers ==> r == Some(handlers[cmdName])
    ensures cmdName !in handlers && cmdName in InheritedMembers ==> r == Some(Inherited(cmdName))
    ensures r.None? <==> cmdName !in handlers && cmdName !in InheritedMembers
  {
    if cmdName in handlers then Some(handlers[cmdName])
    else if cmdName in InheritedMembers then Some(Inherited(cmdName))
    else None
  }

  /** `runCommand` as written: the "not found" error is raised only when the property
      lookup is falsy, which an inherited member never is; the value found is then called,
      which throws a `TypeError` for the prototype object. */
  function RunCommandAsWritten(handlers: map<string, Handler>, cmdName: string, args: seq<string>): (r: Result<Invocation>)
    ensures r == Err(CommandNotFound(cmdName)) <==> cmdName !in handlers && cmdName !in InheritedMembers
    ensures cmdName !in handlers && cmdName == "__proto__" ==> r == Err(NotCallable(cmdName))
    ensures cmdName !in handlers && cmdName in InheritedMembers && cmdName != "__proto__" ==>
      r == Ok(Invocation(Inherited(cmdName), cmdName, args))
    ensures cmdName in handlers && Callable(handlers[cmdName]) ==> r == Ok(Invocation(handlers[cmdName], cmdName, args))
    ensures r.Ok? ==> r.value.cmdName == cmdName && r.value.args == args && Callable(r.value.handler)
  {
    match LookupAsWritten(handlers, cmdName)
    case None => Err(CommandNotFound(cmdName))
    case Some(h) => if Callable(h) then Ok(Invocation(h, cmdName, args)) else Err(NotCallable(cmdName))
  }

  /** `toString` is never registered, yet the lookup as written finds a handler for it,
      so the command does not fail with "not found". */
  lemma InheritedNameIsDispatched()
    ensures "toString" !in MainHandlers
    ensures RunCommandAsWritten(MainHandlers, "toString", []) == Ok(Invocation(Inherited("toString"), "toString", []))
  {
  }

  /** `__proto__` is never registered either; the lookup as written finds the prototype
      object, and calling it throws a `TypeError` instead of the "not found" error. */
  lemma PrototypeNameIsNotCallable()
    ensures "__proto__" !in MainHandlers
    ensures RunCommandAsWritten(MainHandlers, "__proto__", []) == Err(NotCallable("__proto__"))
  {
  }

  /** On names that are not inherited members, the lookup as written and the registered-only
      lookup agree: "not found" exactly for the names never registered, and otherwise the
      call of the registered handler. */
  lemma RunCommandAgreesOffPrototype(handlers: map<string, Handler>, cmdName: string, args: seq<string>)
    requires cmdName !in InheritedMembers
    ensures RunCommandAsWritten(handlers, cmdName, args) == Err(CommandNotFound(cmdName)) <==> cmdName !in handlers
    ensures cmdName in handlers && Callable(handlers[cmdName]) ==>
      RunCommandAsWritten(handlers, cmdName, args) == Ok(Invocation(handlers[cmdName], cmdName, args))
  {
  }

  /** The call `middlewareLoggedIn(handler)` makes: the user handler with the user record. */
  datatype UserInvocation = UserInvocation(handler: UserHandler, cmdName: string, user: User, args: seq<string>)

  /** `middlewareLoggedIn(handler)(cmdName, ...args)`, given the current user name the
      configuration file holds (read outside the model) and the users table: no name (or
      an empty one) is an error, a name with no user row is another, and otherwise the
      handler is called with that user. */
  function MiddlewareLoggedIn(handler: UserHandler, currentUserName: Option<string>, users: seq<User>,
                              cmdName: string, args: seq<string>): (r: Result<UserInvocation>)
    ensures currentUserName.None? || currentUserName == Some("") ==> r == Err(NotLoggedIn)
    ensures currentUserName.Some? && currentUserName.value != "" &&
            (forall u :: u in users ==> u.name != currentUserName.value) ==>
              r == Err(UnknownUser(currentUserName.value))
    ensures r.Ok? ==>
      && r.value.user in users && Some(r.value.user.name) == currentUserName
      && r.value.handler == handler && r.value.cmdName == cmdName && r.value.args == args
  {
    if currentUserName.None? || currentUserName.value == "" then Err(NotLoggedIn)
    else
      match GetUser(users, currentUserName.value)
      case None => Err(UnknownUser(currentUserName.value))
      case Some(user) => Ok(UserInvocation(handler, cmdName, user, args))
  }

  /** A logged-in user whose row exists always gets through, with exactly that row. */
  lemma MiddlewarePassesKnownUser(handler: UserHandler, users: seq<User>, nextId: nat, u: User,
                                  cmdName: string, args: seq<string>)
    requires UsersOk(users, nextId) && u in users && u.name != ""
    ensures MiddlewareLoggedIn(handler, Some(u.name), users, cmdName, args) == Ok(UserInvocation(handler, cmdName, u, args))
  {
    GetUserIsUnique(users, nextId, u);
  }
}
