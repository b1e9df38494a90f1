/**
 * The Command demo: a command greets a name through its receiver; the
 * complex kind also records every name it greeted on a history that
 * starts as 'Foo', 'Bar', 'Baz', and undoes the most recent one on
 * `unexecute`. The invoker forwards its two operations to whichever
 * command was stored last.
 */
module CommandHistory {
  import opened Outcomes

  /** The exceptions the demo can raise. */
  datatype Failure =
    | AttributeError // no command stored yet, or a simple command asked to `unexecute`
    | IndexError     // `pop` from an empty history
    | AssertionError // a client got no receiver for the command it was asked for

  /** `Receiver.action`. */
  function Hello(name: string): string
  {
    "Hello, " + name + "!"
  }

  /** `Receiver.undo`. */
  function Goodbye(name: string): string
  {
    "Goodbye, " + name + "!"
  }

  /** The history every new command starts with. */
  const InitialHistory: seq<string> := ["Foo", "Bar", "Baz"]

  /** The two `Command` subclasses. */
  datatype Kind = Simple | Complex

  /** `SimpleCommand` or `ComplexCommand`, with the history every command has. */
  class Command {
    const kind: Kind
    var history: seq<string>

    /** A new command of either kind starts with the history 'Foo', 'Bar', 'Baz'. */
    constructor (k: Kind)
      ensures kind == k && history == InitialHistory
    {
      kind := k;
      history := InitialHistory;
    }

    /**
     * `execute`: greets the name; the complex kind also pushes it on the
     * history, the simple kind leaves the history alone.
     */
    method Execute(name: string) returns (r: string)
      modifies this
      ensures r == Hello(name)
      ensures kind == Simple ==> history == old(history)
      ensures kind == Complex ==> history == old(history) + [name]
    {
      if kind == Complex {
        history := history + [name];
      }
      r := Hello(name);
    }

    /**
     * `ComplexCommand.unexecute`: pops the most recent name and says
     * goodbye to it. A simple command has no such method, and an empty
     * history cannot be popped.
     */
    method Unexecute() returns (r: Result<string, Failure>)
      modifies this
      ensures kind == Simple ==> r == Err(AttributeError) && history == old(history)
      ensures kind == Complex && old(history) == [] ==> r == Err(IndexError) && history == []
      ensures kind == Complex && old(history) != [] ==>
        history == old(history)[..|old(history)| - 1] && r == Ok(Goodbye(old(history)[|old(history)| - 1]))
    {
      if kind == Simple {
        r := Err(AttributeError);
      } else if history == [] {
        r := Err(IndexError);
      } else {
        var name := history[|history| - 1];
        history := history[..|history| - 1];
        r := Ok(Goodbye(name));
      }
    }
  }

  /** A greeting undone at once says goodbye to the same name and leaves the history as it was. */
  method ExecuteThenUndo(c: Command, name: string) returns (hello: string, goodbye: Result<string, Failure>)
    requires c.kind == Complex
    modifies c
    ensures hello == Hello(name) && goodbye == Ok(Goodbye(name))
    ensures c.history == old(c.history)
  {
    hello := c.Execute(name);
    goodbye := c.Unexecute();
    assert (old(c.history) + [name])[..|old(c.history)|] == old(c.history);
  }

  /** The farewells for a history, popped most recent first. */
  function Farewells(history: seq<string>): (r: seq<string>)
    ensures |r| == |history|
    ensures forall i | 0 <= i < |r| :: r[i] == Goodbye(history[|history| - 1 - i])
  {
    if history == [] then []
    else [Goodbye(history[|history| - 1])] + Farewells(history[..|history| - 1])
  }

  /** Undoing a complex command until its history is empty says goodbye to every name, last in first out. */
  method UndoAll(c: Command) returns (farewells: seq<string>)
    requires c.kind == Complex
    modifies c
    ensures farewells == Farewells(old(c.history)) && c.history == []
  {
    farewells := [];
    while c.history != []
      invariant farewells + Farewells(c.history) == Farewells(old(c.history))
      decreases |c.history|
    {
      var r := c.Unexecute();
      farewells := farewells + [r.value];
    }
  }

  /** `Invoker`: the command stored last, if any. */
  class Invoker {
    var command: Command?

    constructor ()
      ensures command == null
    {
      command := null;
    }

    /** `storeCommand`: the new command replaces any stored before. */
    method StoreCommand(c: Command)
      modifies this
      ensures command == c
    {
      command := c;
    }

    /** `operation1`: the stored command's `execute`. */
    method Operation1(name: string) returns (r: Result<string, Failure>)
      modifies command
      ensures command == null ==> r == Err(AttributeError)
      ensures command != null ==> r == Ok(Hello(name))
      ensures command != null && command.kind == Simple ==> command.history == old(command.history)
      ensures command != null && command.kind == Complex ==> command.history == old(command.history) + [name]
    {
      if command == null {
        r := Err(AttributeError);
      } else {
        var s := command.Execute(name);
        r := Ok(s);
      }
    }

    /** `operation2`: the stored command's `unexecute`. */
    method Operation2() returns (r: Result<string, Failure>)
      modifies command
      ensures command == null ==> r == Err(AttributeError)
      ensures command != null && command.kind == Simple ==> r == Err(AttributeError)
      ensures command != null && command.kind == Complex && old(command.history) != [] ==>
        command.history == old(command.history)[..|old(command.history)| - 1] &&
        r == Ok(Goodbye(old(command.history)[|old(command.history)| - 1]))
      ensures command != null && command.kind == Complex && old(command.history) == [] ==>
        r == Err(IndexError) && command.history == []
    {
      if command == null {
        r := Err(AttributeError);
      } else {
        r := command.Unexecute();
      }
    }
  }

  /** `SimpleClient`: stores a new simple command if the name is one its table has a receiver for. */
  method SimpleClient(invoker: Invoker, cmd: string) returns (r: Result<(), Failure>)
    modifies invoker
    ensures cmd == "greet" ==> (r == Ok(()) && invoker.command != null && fresh(invoker.command)
      && invoker.command.kind == Simple && invoker.command.history == InitialHistory)
    ensures cmd != "greet" ==> r == Err(AssertionError) && invoker.command == old(invoker.command)
  {
    if cmd == "greet" {
      var c := new Command(Simple);
      invoker.StoreCommand(c);
      r := Ok(());
    } else {
      r := Err(AssertionError);
    }
  }

  /** `ComplexClient`: the same, for a complex command; its table knows 'greet' and 'dismiss'. */
  method ComplexClient(invoker: Invoker, cmd: string) returns (r: Result<(), Failure>)
    modifies invoker
    ensures cmd in {"greet", "dismiss"} ==> (r == Ok(()) && invoker.command != null && fresh(invoker.command)
      && invoker.command.kind == Complex && invoker.command.history == InitialHistory)
    ensures cmd !in {"greet", "dismiss"} ==> r == Err(AssertionError) && invoker.command == old(invoker.command)
  {
    if cmd in {"greet", "dismiss"} {
      var c := new Command(Complex);
      invoker.StoreCommand(c);
      r := Ok(());
    } else {
      r := Err(AssertionError);
    }
  }

  /** The first test: a simple 'greet' command greets 'World'. */
  method GreetTest() returns (r: Result<string, Failure>)
    ensures r == Ok("Hello, World!")
  {
    var invoker := new Invoker();
    var _ := SimpleClient(invoker, "greet");
    r := invoker.Operation1("World");
    assert Hello("World") == "Hello, World!";
  }

  /** The second test: three undos of a complex 'dismiss' command say goodbye to Baz, Bar and Foo. */
  method DismissTest() returns (r: seq<Result<string, Failure>>)
    ensures r == [Ok("Goodbye, Baz!"), Ok("Goodbye, Bar!"), Ok("Goodbye, Foo!")]
  {
    var invoker := new Invoker();
    var _ := ComplexClient(invoker, "dismiss");
    var first := invoker.Operation2();
    var second := invoker.Operation2();
    var third := invoker.Operation2();
    r := [first, second, third];
    assert Goodbye("Baz") == "Goodbye, Baz!" && Goodbye("Bar") == "Goodbye, Bar!" && Goodbye("Foo") == "Goodbye, Foo!";
  }
}
