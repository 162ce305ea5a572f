/**
 The command builder behind contract code. Running contract code appends commands to a
 mutable current block; `with` statements and lambdas divert the current block and put it
 back. The builder is proved to build exactly the tree the code denotes.
 */
module CommandBuilder {
  import opened Wrappers

  // ---------- contract code ----------

  /** An expression as the code writes it. A lambda carries the code that is run to collect its commands. */
  datatype Exp =
    | Leaf(text: string)
    | Op(name: string, args: seq<Exp>)
    | Ref(variable: string)
    | Lam(params: string, autoResult: bool, body: seq<Stmt>, returned: Option<Exp>)

  /**
   A statement: one command, a local definition, a block statement such as `if_` or `for_`, a
   name bound to a value for later use, or an exception.
   */
  datatype Stmt =
    | Emit(command: string, arg: Exp)
    | DefineLocal(name: string, arg: Exp)
    | With(command: string, arg: Exp, body: seq<Stmt>)
    | Bind(variable: string, arg: Exp)
    | Raise

  // ---------- the tree the code denotes ----------

  datatype Tree =
    | TreeLeaf(text: string)
    | TreeOp(name: string, args: seq<Tree>)
    | TreeLambda(id: nat, params: string, body: seq<Node>, locals: seq<string>)

  datatype Node =
    | Simple(command: string, arg: Tree)
    | Nested(command: string, arg: Tree, body: seq<Node>, locals: seq<string>)

  /** What the names in scope are bound to. */
  type Env = map<string, Tree>

  /** How code ends. An exception `leaks` when no `with` block caught it after it left a lambda. */
  datatype Ending = Done | Raised(leaks: bool)

  /** What statements add to the current block, the names then bound, the next free lambda id, and how they end. */
  datatype Meaning = Meaning(nodes: seq<Node>, locals: seq<string>, env: Env, nextId: nat, ending: Ending)

  datatype Evaluated<+T> = Evaluated(value: T, nextId: nat, ending: Ending)

  function MeaningOf(code: seq<Stmt>, inContract: bool, id: nat, env: Env): Meaning
    decreases code
  {
    if code == [] then Meaning([], [], env, id, Done)
    else
      var first := MeaningOfStmt(code[0], inContract, id, env);
      if first.ending != Done then first
      else
        Then(first, MeaningOf(code[1..], inContract, first.nextId, first.env))
  }

  /** Two meanings one after the other. */
  function Then(first: Meaning, rest: Meaning): Meaning {
    Meaning(first.nodes + rest.nodes, first.locals + rest.locals, rest.env, rest.nextId, rest.ending)
  }

  function MeaningOfStmt(stmt: Stmt, inContract: bool, id: nat, env: Env): Meaning
    decreases stmt
  {
    if stmt.Raise? then Meaning([], [], env, id, Raised(false))
    else
      var a := TreeOf(stmt.arg, id, env);
      if a.ending != Done then Meaning([], [], env, a.nextId, a.ending)
      else if stmt.Bind? then Meaning([], [], env[stmt.variable := a.value], a.nextId, Done)
      else if !inContract then Meaning([], [], env, a.nextId, Raised(false))
      else if stmt.Emit? then Meaning([Simple(stmt.command, a.value)], [], env, a.nextId, Done)
      else if stmt.DefineLocal? then
        Meaning([Simple("defineLocal", TreeOp(stmt.name, [a.value]))], [stmt.name], env, a.nextId, Done)
      else
        var inner := MeaningOf(stmt.body, true, a.nextId, env);
        Meaning([Nested(stmt.command, a.value, inner.nodes, inner.locals)], [], inner.env, inner.nextId,
                if inner.ending == Done then Done else Raised(false))
  }

  function TreeOf(e: Exp, id: nat, env: Env): Evaluated<Tree>
    decreases e, 1
  {
    match e
    case Leaf(text) => Evaluated(TreeLeaf(text), id, Done)
    case Op(name, args) =>
      var vs := TreesOf(args, id, env);
      Evaluated(TreeOp(name, vs.value), vs.nextId, vs.ending)
    case Ref(variable) =>
      if variable in env then Evaluated(env[variable], id, Done) else Evaluated(TreeLeaf(""), id, Raised(false))
    case Lam(params, _, _, _) =>
      var collected := CollectedBody(e, id + 1, env);
      if collected.ending != Done then Evaluated(TreeLeaf(""), collected.nextId, Raised(true))
      else Evaluated(TreeLambda(id, params, collected.nodes, collected.locals), collected.nextId, Done)
  }

  /** What a lambda's code adds to its own block: its body, then the value it returned as the result. */
  function CollectedBody(e: Exp, id: nat, env: Env): Meaning
    requires e.Lam?
    decreases e, 0
  {
    var inner := MeaningOf(e.body, true, id, env);
    if inner.ending != Done || e.returned.None? then inner
    else
      var r := TreeOf(e.returned.value, inner.nextId, inner.env);
      if r.ending != Done || !e.autoResult then Meaning([], [], env, r.nextId, Raised(true))
      else Then(inner, Meaning([Simple("result", r.value)], [], inner.env, r.nextId, Done))
  }

  function TreesOf(es: seq<Exp>, id: nat, env: Env): Evaluated<seq<Tree>>
    decreases es
  {
    if es == [] then Evaluated([], id, Done)
    else
      var first := TreeOf(es[0], id, env);
      if first.ending != Done then Evaluated([], first.nextId, first.ending)
      else
        var rest := TreesOf(es[1..], first.nextId, env);
        if rest.ending != Done then Evaluated([], rest.nextId, rest.ending)
        else Evaluated([first.value] + rest.value, rest.nextId, Done)
  }

  // ---------- the mutable builder ----------

  datatype Value =
    | ValueLeaf(text: string)
    | ValueOp(name: string, args: seq<Value>)
    | ValueLambda(id: nat, params: string, block: TreeBlock)

  datatype Command =
    | SimpleCommand(command: string, arg: Value)
    | BlockCommand(command: string, arg: Value, block: TreeBlock)

  class TreeBlock {
    var commands: seq<Command>
    var locals: seq<string>

    constructor ()
      ensures commands == [] && locals == []
    {
      commands, locals := [], [];
    }

    method Append(command: Command)
      modifies this`commands
      ensures commands == old(commands) + [command]
    {
      commands := commands + [command];
    }

    method AddLocal(name: string)
      modifies this`locals
      ensures locals == old(locals) + [name]
    {
      locals := locals + [name];
    }
  }

  class MessageBuilder {
    const commands: TreeBlock
    var currentBlock: TreeBlock

    constructor ()
      ensures fresh(commands) && currentBlock == commands && commands.commands == [] && commands.locals == []
    {
      commands := new TreeBlock();
      currentBlock := commands;
    }
  }

  /** Heap commands in `footprint` spell out a tree. */
  ghost predicate Spells(commands: seq<Command>, nodes: seq<Node>, footprint: set<TreeBlock>)
    reads footprint
    decreases nodes
  {
    && |commands| == |nodes|
    && forall i :: 0 <= i < |nodes| ==> SpellsOne(commands[i], nodes[i], footprint)
  }

  ghost predicate SpellsOne(command: Command, node: Node, footprint: set<TreeBlock>)
    reads footprint
    decreases node
  {
    match node
    case Simple(name, arg) =>
      command.SimpleCommand? && command.command == name && SpellsValue(command.arg, arg, footprint)
    case Nested(name, arg, body, locals) =>
      && command.BlockCommand? && command.command == name && SpellsValue(command.arg, arg, footprint)
      && command.block in footprint && command.block.locals == locals
      && Spells(command.block.commands, body, footprint)
  }

  ghost predicate SpellsValue(value: Value, tree: Tree, footprint: set<TreeBlock>)
    reads footprint
    decreases tree
  {
    match tree
    case TreeLeaf(text) => value == ValueLeaf(text)
    case TreeOp(name, args) =>
      value.ValueOp? && value.name == name && SpellsValues(value.args, args, footprint)
    case TreeLambda(id, params, body, locals) =>
      && value.ValueLambda? && value.id == id && value.params == params
      && value.block in footprint && value.block.locals == locals
      && Spells(value.block.commands, body, footprint)
  }

  ghost predicate SpellsValues(values: seq<Value>, trees: seq<Tree>, footprint: set<TreeBlock>)
    reads footprint
    decreases trees
  {
    && |values| == |trees|
    && forall i :: 0 <= i < |trees| ==> SpellsValue(values[i], trees[i], footprint)
  }

  /** Names bound to heap values spell an environment. */
  ghost predicate SpellsEnv(values: map<string, Value>, env: Env, footprint: set<TreeBlock>)
    reads footprint
  {
    values.Keys == env.Keys && forall n :: n in env ==> SpellsValue(values[n], env[n], footprint)
  }

  /** Blocks outside a footprint do not matter to what is spelled inside it. */
  lemma {:induction false} SpellsGrows(commands: seq<Command>, nodes: seq<Node>, small: set<TreeBlock>, large: set<TreeBlock>)
    requires Spells(commands, nodes, small) && small <= large
    ensures Spells(commands, nodes, large)
    decreases nodes
  {
    forall i | 0 <= i < |nodes| ensures SpellsOne(commands[i], nodes[i], large) {
      SpellsOneGrows(commands[i], nodes[i], small, large);
    }
  }

  lemma {:induction false} SpellsOneGrows(command: Command, node: Node, small: set<TreeBlock>, large: set<TreeBlock>)
    requires SpellsOne(command, node, small) && small <= large
    ensures SpellsOne(command, node, large)
    decreases node
  {
    SpellsValueGrows(command.arg, node.arg, small, large);
    if node.Nested? { SpellsGrows(command.block.commands, node.body, small, large); }
  }

  lemma {:induction false} SpellsValueGrows(value: Value, tree: Tree, small: set<TreeBlock>, large: set<TreeBlock>)
    requires SpellsValue(value, tree, small) && small <= large
    ensures SpellsValue(value, tree, large)
    decreases tree
  {
    match tree
    case TreeLeaf(_) =>
    case TreeOp(_, args) =>
      forall i | 0 <= i < |args| ensures SpellsValue(value.args[i], args[i], large) {
        SpellsValueGrows(value.args[i], args[i], small, large);
      }
    case TreeLambda(_, _, body, _) => SpellsGrows(value.block.commands, body, small, large);
  }

  lemma SpellsEnvGrows(values: map<string, Value>, env: Env, small: set<TreeBlock>, large: set<TreeBlock>)
    requires SpellsEnv(values, env, small) && small <= large
    ensures SpellsEnv(values, env, large)
  {
    forall n | n in env ensures SpellsValue(values[n], env[n], large) {
      SpellsValueGrows(values[n], env[n], small, large);
    }
  }

  // ---------- the heap spells one tree only ----------

  /** What is on the heap determines the tree it spells, lambda bodies and nested blocks included. */
  lemma {:induction false} SpellingIsUnique(commands: seq<Command>, a: seq<Node>, f: set<TreeBlock>,
                                            b: seq<Node>, g: set<TreeBlock>)
    requires Spells(commands, a, f) && Spells(commands, b, g)
    ensures a == b
    decreases a
  {
    forall i | 0 <= i < |a| ensures a[i] == b[i] {
      SpellingOfOneIsUnique(commands[i], a[i], f, b[i], g);
    }
  }

  lemma {:induction false} SpellingOfOneIsUnique(command: Command, a: Node, f: set<TreeBlock>,
                                                 b: Node, g: set<TreeBlock>)
    requires SpellsOne(command, a, f) && SpellsOne(command, b, g)
    ensures a == b
    decreases a
  {
    SpellingOfValueIsUnique(command.arg, a.arg, f, b.arg, g);
    if a.Nested? { SpellingIsUnique(command.block.commands, a.body, f, b.body, g); }
  }

  lemma {:induction false} SpellingOfValueIsUnique(value: Value, a: Tree, f: set<TreeBlock>, b: Tree, g: set<TreeBlock>)
    requires SpellsValue(value, a, f) && SpellsValue(value, b, g)
    ensures a == b
    decreases a
  {
    match a
    case TreeLeaf(_) =>
    case TreeOp(_, args) =>
      forall i | 0 <= i < |args| ensures args[i] == b.args[i] {
        SpellingOfValueIsUnique(value.args[i], args[i], f, b.args[i], g);
      }
    case TreeLambda(_, _, body, _) => SpellingIsUnique(value.block.commands, body, f, b.body, g);
  }

  /** Commands built later, in a footprint that has only grown, go behind those built before. */
  lemma SpellsAppends(first: seq<Command>, firstNodes: seq<Node>, small: set<TreeBlock>,
                      second: seq<Command>, secondNodes: seq<Node>, large: set<TreeBlock>)
    requires Spells(first, firstNodes, small) && Spells(second, secondNodes, large) && small <= large
    ensures Spells(first + second, firstNodes + secondNodes, large)
  {
    SpellsGrows(first, firstNodes, small, large);
  }

  /** A finished block under its command. */
  lemma SpellsBlock(command: string, value: Value, tree: Tree, known: set<TreeBlock>, block: TreeBlock,
                    inner: Meaning, inside: set<TreeBlock>)
    requires SpellsValue(value, tree, known) && known <= inside
    requires Spells(block.commands, inner.nodes, inside) && block.locals == inner.locals
    ensures Spells([BlockCommand(command, value, block)], [Nested(command, tree, inner.nodes, inner.locals)],
                   inside + {block})
  {
    var footprint := inside + {block};
    SpellsGrows(block.commands, inner.nodes, inside, footprint);
    SpellsValueGrows(value, tree, known, footprint);
    assert SpellsOne(BlockCommand(command, value, block), Nested(command, tree, inner.nodes, inner.locals), footprint);
  }

  class CommandBlock {
    const commands: TreeBlock
    var saved: TreeBlock

    constructor (outer: TreeBlock)
      ensures fresh(commands) && commands.commands == [] && commands.locals == []
    {
      commands := new TreeBlock();
      saved := outer;
    }

    method Enter(mb: MessageBuilder)
      modifies this, mb`currentBlock
      ensures saved == old(mb.currentBlock) && mb.currentBlock == commands
    {
      saved := mb.currentBlock;
      mb.currentBlock := commands;
    }

    method Exit(mb: MessageBuilder)
      modifies mb`currentBlock
      ensures mb.currentBlock == saved
    {
      mb.currentBlock := saved;
    }
  }

  class Sp {
    var mb: MessageBuilder?
    var lambdaNextId: nat

    constructor ()
      ensures mb == null && lambdaNextId == 0
    {
      mb, lambdaNextId := null, 0;
    }

    /** Appends to the current block; outside any contract it raises. */
    method NewCommand(command: Command) returns (ending: Ending)
      modifies if mb == null then {} else {mb.currentBlock}
      ensures ending == if mb == null then Raised(false) else Done
      ensures mb != null ==> mb.currentBlock.commands == old(mb.currentBlock.commands) + [command]
                             && mb.currentBlock.locals == old(mb.currentBlock.locals)
    {
      if mb == null {
        return Raised(false);
      }
      mb.currentBlock.Append(command);
      return Done;
    }

    /**
     After running code, the current block and the builder are what they were, unless an
     exception leaked out of a lambda: then a builder stays open on some block of that lambda.
     */
    twostate predicate Restored(ending: Ending)
      reads this, mb
    {
      if ending == Raised(true) then
        && mb != null && fresh(mb.currentBlock)
        && (if old(mb) == null then fresh(mb) else mb == old(mb))
      else mb == old(mb) && (mb != null ==> mb.currentBlock == old(mb.currentBlock))
    }

    /**
     Runs contract code. Exactly its meaning is appended to the block that is current at the
     start, and the blocks of the values already bound stay as they are.
     */
    method Exec(code: seq<Stmt>, values: map<string, Value>, ghost env: Env, ghost known: set<TreeBlock>)
      returns (ending: Ending, values': map<string, Value>, ghost added: seq<Command>, ghost footprint: set<TreeBlock>)
      requires SpellsEnv(values, env, known) && (mb != null ==> mb.currentBlock !in known)
      modifies this, if mb == null then {} else {mb as object, mb.currentBlock}
      ensures var m := MeaningOf(code, old(mb) != null, old(lambdaNextId), env);
        && ending == m.ending && lambdaNextId == m.nextId
        && known <= footprint && fresh(footprint - known)
        && Spells(added, m.nodes, footprint) && (ending == Done ==> SpellsEnv(values', m.env, footprint))
        && (old(mb) != null ==>
              && old(mb.currentBlock).commands == old(mb.currentBlock.commands) + added
              && old(mb.currentBlock).locals == old(mb.currentBlock.locals) + m.locals)
      ensures Restored(ending)
      decreases code, 0
    {
      if code == [] {
        return Done, values, [], known;
      }
      ghost var first, second: seq<Command>;
      ghost var fp: set<TreeBlock>;
      ghost var m1 := MeaningOfStmt(code[0], mb != null, lambdaNextId, env);
      ending, values', first, fp := ExecStmt(code[0], values, env, known);
      if ending != Done {
        return ending, values', first, fp;
      }
      ending, values', second, footprint := ExecRest(code[1..], values', m1.env, fp, first, m1.nodes);
      added := first + second;
    }

    /** The statements after those that built `first`. */
    method ExecRest(code: seq<Stmt>, values: map<string, Value>, ghost env: Env, ghost known: set<TreeBlock>,
                    ghost first: seq<Command>, ghost nodes: seq<Node>)
      returns (ending: Ending, values': map<string, Value>, ghost added: seq<Command>, ghost footprint: set<TreeBlock>)
      requires SpellsEnv(values, env, known) && Spells(first, nodes, known)
      requires mb != null ==> mb.currentBlock !in known
      modifies this, if mb == null then {} else {mb as object, mb.currentBlock}
      ensures var m := MeaningOf(code, old(mb) != null, old(lambdaNextId), env);
        && ending == m.ending && lambdaNextId == m.nextId
        && known <= footprint && fresh(footprint - known)
        && Spells(first + added, nodes + m.nodes, footprint)
        && (ending == Done ==> SpellsEnv(values', m.env, footprint))
        && (old(mb) != null ==>
              && old(mb.currentBlock).commands == old(mb.currentBlock.commands) + added
              && old(mb.currentBlock).locals == old(mb.currentBlock.locals) + m.locals)
      ensures Restored(ending)
      decreases code, 1
    {
      ghost var m := MeaningOf(code, mb != null, lambdaNextId, env);
      ending, values', added, footprint := Exec(code, values, env, known);
      SpellsAppends(first, nodes, known, added, m.nodes, footprint);
    }

    method ExecStmt(stmt: Stmt, values: map<string, Value>, ghost env: Env, ghost known: set<TreeBlock>)
      returns (ending: Ending, values': map<string, Value>, ghost added: seq<Command>, ghost footprint: set<TreeBlock>)
      requires SpellsEnv(values, env, known) && (mb != null ==> mb.currentBlock !in known)
      modifies this, if mb == null then {} else {mb as object, mb.currentBlock}
      ensures var m := MeaningOfStmt(stmt, old(mb) != null, old(lambdaNextId), env);
        && ending == m.ending && lambdaNextId == m.nextId
        && known <= footprint && fresh(footprint - known)
        && Spells(added, m.nodes, footprint) && (ending == Done ==> SpellsEnv(values', m.env, footprint))
        && (old(mb) != null ==>
              && old(mb.currentBlock).commands == old(mb.currentBlock.commands) + added
              && old(mb.currentBlock).locals == old(mb.currentBlock.locals) + m.locals)
      ensures Restored(ending)
      decreases stmt
    {
      values', added, footprint := values, [], known;
      if stmt.Raise? {
        return Raised(false), values, [], known;
      }
      var value;
      value, ending, footprint := Eval(stmt.arg, values, env, known);
      SpellsEnvGrows(values, env, known, footprint);
      if ending != Done {
        return;
      }
      ghost var tree := TreeOf(stmt.arg, old(lambdaNextId), env).value;
      if stmt.Bind? {
        values' := values[stmt.variable := value];
        return;
      }
      if mb == null {
        return Raised(false), values, [], footprint;
      }
      match stmt
      case Emit(command, _) =>
        ending, added := ExecCommand(command, value, tree, footprint);
      case DefineLocal(name, _) =>
        ghost var trees := [tree];
        assert SpellsValues([value], trees, footprint);
        ending, added := ExecCommand("defineLocal", ValueOp(name, [value]), TreeOp(name, trees), footprint);
        mb.currentBlock.AddLocal(name);
      case With(command, _, body) =>
        ending, values', added, footprint := ExecBlock(command, value, tree, body, values, env, footprint);
    }

    /** A command whose argument is already evaluated. */
    method ExecCommand(command: string, value: Value, ghost tree: Tree, ghost footprint: set<TreeBlock>)
      returns (ending: Ending, ghost added: seq<Command>)
      requires mb != null && mb.currentBlock !in footprint && SpellsValue(value, tree, footprint)
      modifies mb.currentBlock
      ensures ending == Done && Spells(added, [Simple(command, tree)], footprint)
      ensures mb.currentBlock.commands == old(mb.currentBlock.commands) + added
      ensures mb.currentBlock.locals == old(mb.currentBlock.locals)
    {
      var c := SimpleCommand(command, value);
      ending := NewCommand(c);
      added := [c];
      assert SpellsOne(c, Simple(command, tree), footprint);
    }

    /** A block statement whose argument is already evaluated. */
    method ExecBlock(command: string, value: Value, ghost tree: Tree, body: seq<Stmt>,
                     values: map<string, Value>, ghost env: Env, ghost known: set<TreeBlock>)
      returns (ending: Ending, values': map<string, Value>, ghost added: seq<Command>, ghost footprint: set<TreeBlock>)
      requires mb != null && mb.currentBlock !in known && SpellsValue(value, tree, known) && SpellsEnv(values, env, known)
      modifies this, mb, mb.currentBlock
      ensures var inner := MeaningOf(body, true, old(lambdaNextId), env);
        && ending == (if inner.ending == Done then Done else Raised(false)) && lambdaNextId == inner.nextId
        && known <= footprint && fresh(footprint - known)
        && Spells(added, [Nested(command, tree, inner.nodes, inner.locals)], footprint)
        && (ending == Done ==> SpellsEnv(values', inner.env, footprint))
      ensures mb == old(mb) && mb.currentBlock == old(mb.currentBlock)
      ensures mb.currentBlock.commands == old(mb.currentBlock.commands) + added
      ensures mb.currentBlock.locals == old(mb.currentBlock.locals)
      decreases body, 2
    {
      var block := new CommandBlock(mb.currentBlock);
      var c := BlockCommand(command, value, block.commands);
      var _ := NewCommand(c);
      ghost var inner := MeaningOf(body, true, lambdaNextId, env);
      ghost var inside, innerAdded;
      ending, values', innerAdded, inside := ExecInside(block, body, values, env, known);
      footprint := inside + {block.commands};
      added := [c];
      SpellsBlock(command, value, tree, known, block.commands, inner, inside);
      if ending == Done { SpellsEnvGrows(values', inner.env, inside, footprint); }
    }

    /** The body of a `with`: it runs in the block of the statement, and the current block is put back on every exit. */
    method ExecInside(block: CommandBlock, body: seq<Stmt>,
                      values: map<string, Value>, ghost env: Env, ghost known: set<TreeBlock>)
      returns (ending: Ending, values': map<string, Value>, ghost added: seq<Command>, ghost footprint: set<TreeBlock>)
      requires mb != null && SpellsEnv(values, env, known) && block.commands !in known
      requires block.commands.commands == [] && block.commands.locals == []
      requires mb.currentBlock != block.commands
      modifies this, mb, block, block.commands
      ensures var inner := MeaningOf(body, true, old(lambdaNextId), env);
        && ending == (if inner.ending == Done then Done else Raised(false)) && lambdaNextId == inner.nextId
        && known <= footprint && fresh(footprint - known)
        && added == block.commands.commands && block.commands.locals == inner.locals
        && Spells(added, inner.nodes, footprint)
        && (ending == Done ==> SpellsEnv(values', inner.env, footprint))
      ensures mb == old(mb) && mb.currentBlock == old(mb.currentBlock)
      decreases body, 1
    {
      block.Enter(mb);
      ending, values', added, footprint := Exec(body, values, env, known);
      block.Exit(mb);
      if ending != Done {
        ending := Raised(false);
      }
    }

    /** Evaluates an expression. Nothing is appended to the block that is current at the start. */
    method Eval(e: Exp, values: map<string, Value>, ghost env: Env, ghost known: set<TreeBlock>)
      returns (value: Value, ending: Ending, ghost footprint: set<TreeBlock>)
      requires SpellsEnv(values, env, known)
      modifies this, if mb == null then {} else {mb}
      ensures var t := TreeOf(e, old(lambdaNextId), env);
        && ending == t.ending && lambdaNextId == t.nextId
        && known <= footprint && fresh(footprint - known)
        && (ending == Done ==> SpellsValue(value, t.value, footprint))
      ensures Restored(ending)
      decreases e, 3
    {
      footprint := known;
      match e
      case Leaf(text) =>
        value, ending := ValueLeaf(text), Done;
      case Op(name, args) =>
        var arguments;
        arguments, ending, footprint := EvalAll(args, values, env, known);
        value := ValueOp(name, arguments);
      case Ref(variable) =>
        if variable in values {
          value, ending := values[variable], Done;
        } else {
          value, ending := ValueLeaf(""), Raised(false);
        }
      case Lam(_, _, _, _) =>
        value, ending, footprint := CollectLambda(e, values, env, known);
    }

    method EvalAll(es: seq<Exp>, values: map<string, Value>, ghost env: Env, ghost known: set<TreeBlock>)
      returns (results: seq<Value>, ending: Ending, ghost footprint: set<TreeBlock>)
      requires SpellsEnv(values, env, known)
      modifies this, if mb == null then {} else {mb}
      ensures var t := TreesOf(es, old(lambdaNextId), env);
        && ending == t.ending && lambdaNextId == t.nextId
        && known <= footprint && fresh(footprint - known)
        && (ending == Done ==> SpellsValues(results, t.value, footprint))
      ensures Restored(ending)
      decreases es
    {
      results, ending, footprint := [], Done, known;
      if es == [] {
        return;
      }
      var first;
      first, ending, footprint := Eval(es[0], values, env, known);
      if ending != Done {
        return;
      }
      ghost var fp := footprint;
      ghost var t1 := TreeOf(es[0], old(lambdaNextId), env).value;
      SpellsEnvGrows(values, env, known, fp);
      var rest;
      rest, ending, footprint := EvalAll(es[1..], values, env, fp);
      results := [first] + rest;
      if ending == Done {
        SpellsValueGrows(first, t1, fp, footprint);
      }
    }

    /** What `collectLambda` does with the value its function returned: append it as the result, or complain. */
    method AppendResult(returned: Exp, autoResult: bool, values: map<string, Value>, ghost env: Env,
                        ghost added: seq<Command>, ghost nodes: seq<Node>, ghost known: set<TreeBlock>)
      returns (ending: Ending, ghost added': seq<Command>, ghost footprint: set<TreeBlock>)
      requires mb != null && mb.currentBlock !in known && Spells(added, nodes, known) && SpellsEnv(values, env, known)
      modifies this, mb, mb.currentBlock
      ensures var r := TreeOf(returned, old(lambdaNextId), env);
        && lambdaNextId == r.nextId && (ending == Done <==> r.ending == Done && autoResult)
        && (ending == Done ==> Spells(added', nodes + [Simple("result", r.value)], footprint))
      ensures mb == old(mb) && (mb.currentBlock == old(mb.currentBlock) || (ending != Done && fresh(mb.currentBlock)))
      ensures ending == Done ==>
        && known <= footprint && fresh(footprint - known) && |added'| >= |added| && added'[..|added|] == added
        && mb.currentBlock.commands == old(mb.currentBlock.commands) + added'[|added|..]
        && mb.currentBlock.locals == old(mb.currentBlock.locals)
      decreases returned, 4
    {
      var r;
      r, ending, footprint := Eval(returned, values, env, known);
      if ending != Done || !autoResult {
        return Raised(false), [], {};
      }
      ghost var tree := TreeOf(returned, old(lambdaNextId), env).value;
      ghost var more;
      ending, more := ExecCommand("result", r, tree, footprint);
      SpellsAppends(added, nodes, known, more, [Simple("result", tree)], footprint);
      added' := added + more;
    }

    /** Runs a lambda's code in the current block. */
    method ExecLambda(e: Exp, values: map<string, Value>, ghost env: Env, ghost known: set<TreeBlock>)
      returns (ending: Ending, ghost added: seq<Command>, ghost footprint: set<TreeBlock>)
      requires e.Lam? && mb != null && mb.currentBlock !in known && SpellsEnv(values, env, known)
      modifies this, mb, mb.currentBlock
      ensures var m := CollectedBody(e, old(lambdaNextId), env);
        && mb == old(mb)
        && lambdaNextId == m.nextId
        && (ending == Done <==> m.ending == Done)
        && (ending == Done ==>
              && Spells(added, m.nodes, footprint) && known <= footprint && fresh(footprint - known)
              && mb.currentBlock == old(mb.currentBlock)
              && mb.currentBlock.commands == old(mb.currentBlock.commands) + added
              && mb.currentBlock.locals == old(mb.currentBlock.locals) + m.locals)
      ensures mb.currentBlock == old(mb.currentBlock) || fresh(mb.currentBlock)
      decreases e, 0
    {
      ghost var inner := MeaningOf(e.body, true, lambdaNextId, env);
      var bound;
      ending, bound, added, footprint := Exec(e.body, values, env, known);
      if ending == Done && e.returned.Some? {
        ending, added, footprint :=
          AppendResult(e.returned.value, e.autoResult, bound, inner.env, added, inner.nodes, footprint);
      }
    }

    /** Collects a lambda with a builder open: its commands go to a block of their own. */
    method CollectCommands(id: nat, e: Exp, values: map<string, Value>, ghost env: Env, ghost known: set<TreeBlock>)
      returns (value: Value, ending: Ending, ghost footprint: set<TreeBlock>)
      requires mb != null && lambdaNextId == id + 1 && e.Lam? && SpellsEnv(values, env, known)
      modifies this, mb
      ensures var t := TreeOf(e, id, env);
        && ending == t.ending && lambdaNextId == t.nextId
        && known <= footprint && fresh(footprint - known)
        && (ending == Done ==> SpellsValue(value, t.value, footprint))
      ensures mb == old(mb)
      ensures if ending == Done then mb.currentBlock == old(mb.currentBlock) else fresh(mb.currentBlock)
      decreases e, 1
    {
      var currentBlock := mb.currentBlock;
      var commands := new TreeBlock();
      value := ValueLambda(id, e.params, commands);
      mb.currentBlock := commands;
      ghost var added;
      ending, added, footprint := ExecLambda(e, values, env, known);
      if ending != Done {
        return value, Raised(true), known;
      }
      SpellsGrows(added, CollectedBody(e, id + 1, env).nodes, footprint, footprint + {commands});
      footprint := footprint + {commands};
      mb.currentBlock := currentBlock;
    }

    /** Collects a lambda; outside any contract a builder is opened for it and closed again. */
    method CollectLambda(e: Exp, values: map<string, Value>, ghost env: Env, ghost known: set<TreeBlock>)
      returns (value: Value, ending: Ending, ghost footprint: set<TreeBlock>)
      requires e.Lam? && SpellsEnv(values, env, known)
      modifies this, if mb == null then {} else {mb}
      ensures var t := TreeOf(e, old(lambdaNextId), env);
        && ending == t.ending && lambdaNextId == t.nextId
        && known <= footprint && fresh(footprint - known)
        && (ending == Done ==> SpellsValue(value, t.value, footprint))
      ensures Restored(ending)
      decreases e, 2
    {
      var id := lambdaNextId;
      lambdaNextId := lambdaNextId + 1;
      var newMB := mb == null;
      if newMB {
        mb := new MessageBuilder();
      }
      value, ending, footprint := CollectCommands(id, e, values, env, known);
      if newMB && ending == Done {
        mb := null;
      }
    }

    /**
     `addMessage`: collects a whole entry point in a builder of its own, with the names bound
     around the contract in scope. On success the builder holds exactly the entry point's tree
     and no builder stays open; an exception leaves one open.
     */
    method AddMessage(code: seq<Stmt>, returnsValue: bool,
                      values: map<string, Value>, ghost env: Env, ghost known: set<TreeBlock>)
      returns (message: MessageBuilder, ending: Ending, ghost footprint: set<TreeBlock>)
      requires SpellsEnv(values, env, known)
      modifies this
      ensures var m := MeaningOf(code, true, old(lambdaNextId), env);
        && lambdaNextId == m.nextId && fresh(message) && fresh(message.commands) && fresh(footprint - known)
        && Spells(message.commands.commands, m.nodes, footprint) && message.commands.locals == m.locals
        && (ending == Done <==> m.ending == Done && !returnsValue)
      ensures mb == if ending == Done then null else message
    {
      message := new MessageBuilder();
      mb := message;
      ghost var added;
      var bound;
      ending, bound, added, footprint := Exec(code, values, env, known);
      if ending != Done || returnsValue {
        ending := Raised(false);
        return;
      }
      mb := null;
    }
  }

  // ---------- facts about meanings ----------

  /** Code in sequence appends its commands in sequence. */
  lemma {:induction false} MeaningOfSequence(a: seq<Stmt>, b: seq<Stmt>, inContract: bool, id: nat, env: Env)
    requires MeaningOf(a, inContract, id, env).ending == Done
    ensures var m := MeaningOf(a, inContract, id, env);
      MeaningOf(a + b, inContract, id, env) == Then(m, MeaningOf(b, inContract, m.nextId, m.env))
    decreases a
  {
    if a == [] {
      assert a + b == b;
    } else {
      var first := MeaningOfStmt(a[0], inContract, id, env);
      var rest := MeaningOf(a[1..], inContract, first.nextId, first.env);
      assert (a + b)[0] == a[0] && (a + b)[1..] == a[1..] + b;
      MeaningOfSequence(a[1..], b, inContract, first.nextId, first.env);
      ThenAssociates(first, rest, MeaningOf(b, inContract, rest.nextId, rest.env));
    }
  }

  lemma ThenAssociates(a: Meaning, b: Meaning, c: Meaning)
    ensures Then(Then(a, b), c) == Then(a, Then(b, c))
  {
    assert a.nodes + b.nodes + c.nodes == a.nodes + (b.nodes + c.nodes);
    assert a.locals + b.locals + c.locals == a.locals + (b.locals + c.locals);
  }

  // ---------- reading the tree back ----------

  /** One word of contract code, or a bracket around what belongs together. A closed block lists its locals. */
  datatype Word =
    | CommandName(text: string)
    | OperatorName(text: string)
    | LeafText(text: string)
    | Parameters(text: string)
    | Opens
    | Closes(locals: seq<string>)

  function ReadNodes(nodes: seq<Node>): seq<Word>
    decreases nodes
  {
    if nodes == [] then [] else ReadNode(nodes[0]) + ReadNodes(nodes[1..])
  }

  function ReadNode(node: Node): seq<Word>
    decreases node
  {
    [CommandName(node.command)] + ReadTree(node.arg)
    + if node.Nested? then [Opens] + ReadNodes(node.body) + [Closes(node.locals)] else []
  }

  function ReadTree(tree: Tree): seq<Word>
    decreases tree
  {
    match tree
    case TreeLeaf(text) => [LeafText(text)]
    case TreeOp(name, args) => [OperatorName(name), Opens] + ReadTrees(args) + [Closes([])]
    case TreeLambda(_, params, body, locals) => [Parameters(params), Opens] + ReadNodes(body) + [Closes(locals)]
  }

  function ReadTrees(trees: seq<Tree>): seq<Word>
    decreases trees
  {
    if trees == [] then [] else ReadTree(trees[0]) + ReadTrees(trees[1..])
  }

  /** What the names in scope stand for, in words. */
  type Scope = map<string, seq<Word>>

  /** The code in words, written down without running it. */
  function WrittenCode(code: seq<Stmt>, scope: Scope): seq<Word>
    decreases code
  {
    if code == [] then [] else WrittenStmt(code[0], scope) + WrittenCode(code[1..], ScopeAfterStmt(code[0], scope))
  }

  function WrittenStmt(stmt: Stmt, scope: Scope): seq<Word>
    decreases stmt
  {
    match stmt
    case Emit(command, arg) => [CommandName(command)] + WrittenExp(arg, scope)
    case DefineLocal(name, arg) =>
      [CommandName("defineLocal"), OperatorName(name), Opens] + WrittenExp(arg, scope) + [Closes([])]
    case With(command, arg, body) =>
      [CommandName(command)] + WrittenExp(arg, scope) + [Opens] + WrittenCode(body, scope) + [Closes(LocalsOf(body))]
    case Bind(_, _) => []
    case Raise => []
  }

  function WrittenExp(e: Exp, scope: Scope): seq<Word>
    decreases e, 1
  {
    match e
    case Leaf(text) => [LeafText(text)]
    case Op(name, args) => [OperatorName(name), Opens] + WrittenExps(args, scope) + [Closes([])]
    case Ref(variable) => if variable in scope then scope[variable] else []
    case Lam(params, _, body, _) => [Parameters(params), Opens] + WrittenBody(e, scope) + [Closes(LocalsOf(body))]
  }

  /** A lambda's code, then the value it returns as its result. */
  function WrittenBody(e: Exp, scope: Scope): seq<Word>
    requires e.Lam?
    decreases e, 0
  {
    WrittenCode(e.body, scope)
    + match e.returned
      case None => []
      case Some(r) => [CommandName("result")] + WrittenExp(r, ScopeAfter(e.body, scope))
  }

  function WrittenExps(es: seq<Exp>, scope: Scope): seq<Word>
    decreases es
  {
    if es == [] then [] else WrittenExp(es[0], scope) + WrittenExps(es[1..], scope)
  }

  function ScopeAfter(code: seq<Stmt>, scope: Scope): Scope
    decreases code
  {
    if code == [] then scope else ScopeAfter(code[1..], ScopeAfterStmt(code[0], scope))
  }

  function ScopeAfterStmt(stmt: Stmt, scope: Scope): Scope
    decreases stmt
  {
    match stmt
    case Bind(variable, arg) => scope[variable := WrittenExp(arg, scope)]
    case With(_, _, body) => ScopeAfter(body, scope)
    case _ => scope
  }

  /** The local names defined by the statements of a block itself. */
  function LocalsOf(code: seq<Stmt>): seq<string> {
    if code == [] then []
    else (if code[0].DefineLocal? then [code[0].name] else []) + LocalsOf(code[1..])
  }

  ghost predicate EnvReads(env: Env, scope: Scope) {
    env.Keys == scope.Keys && forall n :: n in env ==> ReadTree(env[n]) == scope[n]
  }

  lemma {:induction false} ReadAppends(a: seq<Node>, b: seq<Node>)
    ensures ReadNodes(a + b) == ReadNodes(a) + ReadNodes(b)
    decreases |a|
  {
    if a == [] {
      assert a + b == b;
    } else {
      assert (a + b)[0] == a[0] && (a + b)[1..] == a[1..] + b;
      ReadAppends(a[1..], b);
    }
  }

  lemma ReadOne(node: Node)
    ensures ReadNodes([node]) == ReadNode(node)
  {
    assert ReadNodes([node][1..]) == [];
  }

  lemma ReadOperator(name: string, arg: Tree)
    ensures ReadTree(TreeOp(name, [arg])) == [OperatorName(name), Opens] + ReadTree(arg) + [Closes([])]
  {
    assert ReadTrees([arg]) == ReadTree(arg) + ReadTrees([arg][1..]);
  }

  /**
   The tree holds the code, the whole code and nothing else: read back, it is what the code says
   in words, at every depth, with lambda bodies, results, blocks and locals where the code has
   them, and every name in scope replaced by what it was bound to.
   */
  lemma {:induction false} TheTreeIsTheCode(code: seq<Stmt>, inContract: bool, id: nat, env: Env, scope: Scope)
    requires EnvReads(env, scope) && MeaningOf(code, inContract, id, env).ending == Done
    ensures var m := MeaningOf(code, inContract, id, env);
      && ReadNodes(m.nodes) == WrittenCode(code, scope)
      && m.locals == LocalsOf(code)
      && EnvReads(m.env, ScopeAfter(code, scope))
    decreases code, 0
  {
    if code != [] {
      var first := MeaningOfStmt(code[0], inContract, id, env);
      StmtIsRead(code[0], inContract, id, env, scope);
      TheTreeIsTheCode(code[1..], inContract, first.nextId, first.env, ScopeAfterStmt(code[0], scope));
      ReadAppends(first.nodes, MeaningOf(code[1..], inContract, first.nextId, first.env).nodes);
    }
  }

  lemma {:induction false} StmtIsRead(stmt: Stmt, inContract: bool, id: nat, env: Env, scope: Scope)
    requires EnvReads(env, scope) && MeaningOfStmt(stmt, inContract, id, env).ending == Done
    ensures var m := MeaningOfStmt(stmt, inContract, id, env);
      && ReadNodes(m.nodes) == WrittenStmt(stmt, scope)
      && m.locals == (if stmt.DefineLocal? then [stmt.name] else [])
      && EnvReads(m.env, ScopeAfterStmt(stmt, scope))
    decreases stmt
  {
    var a := TreeOf(stmt.arg, id, env);
    TreeIsRead(stmt.arg, id, env, scope);
    match stmt
    case Emit(command, _) => ReadOne(Simple(command, a.value));
    case DefineLocal(name, _) => DefinitionIsRead(name, a.value);
    case With(command, _, body) => BlockIsRead(command, a.value, body, a.nextId, env, scope);
    case Bind(_, _) =>
  }

  lemma DefinitionIsRead(name: string, value: Tree)
    ensures ReadNodes([Simple("defineLocal", TreeOp(name, [value]))])
         == [CommandName("defineLocal"), OperatorName(name), Opens] + ReadTree(value) + [Closes([])]
  {
    ReadOne(Simple("defineLocal", TreeOp(name, [value])));
    ReadOperator(name, value);
  }

  lemma {:induction false} BlockIsRead(command: string, tree: Tree, body: seq<Stmt>, id: nat, env: Env, scope: Scope)
    requires EnvReads(env, scope) && MeaningOf(body, true, id, env).ending == Done
    ensures var inner := MeaningOf(body, true, id, env);
      && ReadNodes([Nested(command, tree, inner.nodes, inner.locals)])
         == [CommandName(command)] + ReadTree(tree) + [Opens] + WrittenCode(body, scope) + [Closes(LocalsOf(body))]
      && EnvReads(inner.env, ScopeAfter(body, scope))
    decreases body, 1
  {
    var inner := MeaningOf(body, true, id, env);
    TheTreeIsTheCode(body, true, id, env, scope);
    ReadOne(Nested(command, tree, inner.nodes, inner.locals));
  }

  lemma {:induction false} TreeIsRead(e: Exp, id: nat, env: Env, scope: Scope)
    requires EnvReads(env, scope) && TreeOf(e, id, env).ending == Done
    ensures ReadTree(TreeOf(e, id, env).value) == WrittenExp(e, scope)
    decreases e, 1
  {
    match e
    case Leaf(_) =>
    case Op(_, args) => TreesAreRead(args, id, env, scope);
    case Ref(_) =>
    case Lam(_, _, _, _) => BodyIsRead(e, id + 1, env, scope);
  }

  lemma {:induction false} BodyIsRead(e: Exp, id: nat, env: Env, scope: Scope)
    requires e.Lam? && EnvReads(env, scope) && CollectedBody(e, id, env).ending == Done
    ensures ReadNodes(CollectedBody(e, id, env).nodes) == WrittenBody(e, scope)
    ensures CollectedBody(e, id, env).locals == LocalsOf(e.body)
    decreases e, 0
  {
    var inner := MeaningOf(e.body, true, id, env);
    TheTreeIsTheCode(e.body, true, id, env, scope);
    if e.returned.Some? {
      var r := TreeOf(e.returned.value, inner.nextId, inner.env);
      ResultIsRead(e.returned.value, inner.nodes, inner.nextId, inner.env, ScopeAfter(e.body, scope));
    }
  }

  lemma {:induction false} ResultIsRead(returned: Exp, nodes: seq<Node>, id: nat, env: Env, scope: Scope)
    requires EnvReads(env, scope) && TreeOf(returned, id, env).ending == Done
    ensures ReadNodes(nodes + [Simple("result", TreeOf(returned, id, env).value)])
         == ReadNodes(nodes) + ([CommandName("result")] + WrittenExp(returned, scope))
    decreases returned, 2
  {
    var result := Simple("result", TreeOf(returned, id, env).value);
    TreeIsRead(returned, id, env, scope);
    ReadOne(result);
    ReadAppends(nodes, [result]);
  }

  lemma {:induction false} TreesAreRead(es: seq<Exp>, id: nat, env: Env, scope: Scope)
    requires EnvReads(env, scope) && TreesOf(es, id, env).ending == Done
    ensures ReadTrees(TreesOf(es, id, env).value) == WrittenExps(es, scope)
    decreases es
  {
    if es != [] {
      var first := TreeOf(es[0], id, env);
      TreeIsRead(es[0], id, env, scope);
      TreesAreRead(es[1..], first.nextId, env, scope);
      assert ([first.value] + TreesOf(es[1..], first.nextId, env).value)[1..]
          == TreesOf(es[1..], first.nextId, env).value;
    }
  }

  lemma OneCommand(command: string, arg: Exp, id: nat, env: Env)
    requires TreeOf(arg, id, env).ending == Done
    ensures var a := TreeOf(arg, id, env);
      MeaningOf([Emit(command, arg)], true, id, env) == Meaning([Simple(command, a.value)], [], env, a.nextId, Done)
  {
    var a := TreeOf(arg, id, env);
    assert [Emit(command, arg)][1..] == [];
    assert MeaningOf([], true, a.nextId, env) == Meaning([], [], env, a.nextId, Done);
    assert [Simple(command, a.value)] + [] == [Simple(command, a.value)];
  }

  /** One command with a lambda that checks a condition and returns a value: both are in the lambda's own block. */
  lemma LambdasKeepTheirCode(command: string, params: string, check: string, condition: string, value: string, id: nat)
    ensures var f := Lam(params, true, [Emit(check, Leaf(condition))], Some(Leaf(value)));
      var body := [Simple(check, TreeLeaf(condition)), Simple("result", TreeLeaf(value))];
      MeaningOf([Emit(command, f)], true, id, map[]).nodes == [Simple(command, TreeLambda(id, params, body, []))]
  {
    var f := Lam(params, true, [Emit(check, Leaf(condition))], Some(Leaf(value)));
    OneCommand(check, Leaf(condition), id + 1, map[]);
    assert f.body == [Emit(check, Leaf(condition))];
    assert [Simple(check, TreeLeaf(condition))] + [Simple("result", TreeLeaf(value))]
        == [Simple(check, TreeLeaf(condition)), Simple("result", TreeLeaf(value))];
    assert TreeOf(Leaf(value), id + 1, map[]) == Evaluated(TreeLeaf(value), id + 1, Done);
    assert CollectedBody(f, id + 1, map[]).ending == Done;
    assert TreeOf(f, id, map[]).ending == Done;
    OneCommand(command, f, id, map[]);
  }

  // ---------- code that runs through ----------

  /** Nothing in the code raises: no exception, no unbound name, no command outside a contract, no value a lambda may not return. */
  predicate RunsThrough(code: seq<Stmt>, inContract: bool, names: set<string>)
    decreases code
  {
    code == [] ||
    (StmtRunsThrough(code[0], inContract, names) && RunsThrough(code[1..], inContract, NamesAfterStmt(code[0], names)))
  }

  predicate StmtRunsThrough(stmt: Stmt, inContract: bool, names: set<string>)
    decreases stmt
  {
    && !stmt.Raise? && ExpRunsThrough(stmt.arg, names) && (stmt.Bind? || inContract)
    && (stmt.With? ==> RunsThrough(stmt.body, true, names))
  }

  predicate ExpRunsThrough(e: Exp, names: set<string>)
    decreases e
  {
    match e
    case Leaf(_) => true
    case Op(_, args) => forall i :: 0 <= i < |args| ==> ExpRunsThrough(args[i], names)
    case Ref(variable) => variable in names
    case Lam(_, autoResult, body, returned) =>
      && RunsThrough(body, true, names)
      && (returned.Some? ==> autoResult && ExpRunsThrough(returned.value, NamesAfter(body, names)))
  }

  function NamesAfter(code: seq<Stmt>, names: set<string>): set<string>
    decreases code
  {
    if code == [] then names else NamesAfter(code[1..], NamesAfterStmt(code[0], names))
  }

  function NamesAfterStmt(stmt: Stmt, names: set<string>): set<string>
    decreases stmt
  {
    match stmt
    case Bind(variable, _) => names + {variable}
    case With(_, _, body) => NamesAfter(body, names)
    case _ => names
  }

  /** Running code ends without an exception exactly when nothing written in it raises. */
  lemma {:induction false} EndsWellExactlyWhen(code: seq<Stmt>, inContract: bool, id: nat, env: Env)
    ensures var m := MeaningOf(code, inContract, id, env);
      && (m.ending == Done <==> RunsThrough(code, inContract, env.Keys))
      && (m.ending == Done ==> m.env.Keys == NamesAfter(code, env.Keys))
    decreases code
  {
    if code != [] {
      var first := MeaningOfStmt(code[0], inContract, id, env);
      StmtEndsWell(code[0], inContract, id, env);
      EndsWellExactlyWhen(code[1..], inContract, first.nextId, first.env);
    }
  }

  lemma {:induction false} StmtEndsWell(stmt: Stmt, inContract: bool, id: nat, env: Env)
    ensures var m := MeaningOfStmt(stmt, inContract, id, env);
      && (m.ending == Done <==> StmtRunsThrough(stmt, inContract, env.Keys))
      && (m.ending == Done ==> m.env.Keys == NamesAfterStmt(stmt, env.Keys))
    decreases stmt
  {
    if !stmt.Raise? {
      ExpEndsWell(stmt.arg, id, env);
      if stmt.With? { EndsWellExactlyWhen(stmt.body, true, TreeOf(stmt.arg, id, env).nextId, env); }
    }
  }

  lemma {:induction false} ExpEndsWell(e: Exp, id: nat, env: Env)
    ensures TreeOf(e, id, env).ending == Done <==> ExpRunsThrough(e, env.Keys)
    decreases e, 1
  {
    match e
    case Leaf(_) =>
    case Ref(_) =>
    case Op(_, args) => ExpsEndWell(args, id, env);
    case Lam(_, _, _, _) => BodyEndsWell(e, id + 1, env);
  }

  lemma {:induction false} BodyEndsWell(e: Exp, id: nat, env: Env)
    requires e.Lam?
    ensures CollectedBody(e, id, env).ending == Done <==> ExpRunsThrough(e, env.Keys)
    decreases e, 0
  {
    var inner := MeaningOf(e.body, true, id, env);
    EndsWellExactlyWhen(e.body, true, id, env);
    if inner.ending == Done && e.returned.Some? {
      ExpEndsWell(e.returned.value, inner.nextId, inner.env);
    }
  }

  lemma {:induction false} ExpsEndWell(es: seq<Exp>, id: nat, env: Env)
    ensures TreesOf(es, id, env).ending == Done <==>
      forall i :: 0 <= i < |es| ==> ExpRunsThrough(es[i], env.Keys)
    decreases es
  {
    if es != [] {
      ExpEndsWell(es[0], id, env);
      ExpsEndWell(es[1..], TreeOf(es[0], id, env).nextId, env);
      assert forall i :: 0 < i < |es| ==> es[i] == es[1..][i - 1];
    }
  }

  // ---------- exceptions that leave a lambda ----------

  /**
   Statement `i` is reached, and its expression, which is evaluated before any block of the
   statement is entered, lets an exception out of a lambda.
   */
  ghost predicate LeaksAt(code: seq<Stmt>, inContract: bool, id: nat, env: Env, i: nat)
    requires i < |code|
  {
    var before := MeaningOf(code[..i], inContract, id, env);
    before.ending == Done && !code[i].Raise? && TreeOf(code[i].arg, before.nextId, before.env).ending == Raised(true)
  }

  lemma PrefixMeaning(code: seq<Stmt>, inContract: bool, id: nat, env: Env, i: nat)
    requires 0 < i <= |code|
    ensures var first := MeaningOfStmt(code[0], inContract, id, env);
      MeaningOf(code[..i], inContract, id, env)
      == if first.ending != Done then first
         else Then(first, MeaningOf(code[1..][..i - 1], inContract, first.nextId, first.env))
  {
    assert code[..i][0] == code[0] && code[..i][1..] == code[1..][..i - 1];
  }

  lemma LeaksLater(code: seq<Stmt>, inContract: bool, id: nat, env: Env, i: nat)
    requires 0 < i < |code|
    ensures var first := MeaningOfStmt(code[0], inContract, id, env);
      LeaksAt(code, inContract, id, env, i) <==>
        first.ending == Done && LeaksAt(code[1..], inContract, first.nextId, first.env, i - 1)
  {
    PrefixMeaning(code, inContract, id, env, i);
    assert code[1..][i - 1] == code[i];
  }

  /** The code raises in statement `i`, with everything before it built. */
  ghost predicate StopsAt(code: seq<Stmt>, inContract: bool, id: nat, env: Env, i: nat) {
    i < |code| &&
    var (m, before) := (MeaningOf(code, inContract, id, env), MeaningOf(code[..i], inContract, id, env));
    var stopped := MeaningOfStmt(code[i], inContract, before.nextId, before.env);
    && before.ending == Done && stopped.ending != Done && m.ending == stopped.ending
    && m.nodes == before.nodes + stopped.nodes && m.locals == before.locals
  }

  /** Of a statement that raises at most the block its body got to is built. */
  lemma RaisingStatementBuilds(stmt: Stmt, inContract: bool, id: nat, env: Env)
    requires MeaningOfStmt(stmt, inContract, id, env).ending != Done
    ensures var m := MeaningOfStmt(stmt, inContract, id, env);
      && m.locals == [] && (m.nodes != [] ==> stmt.With? && |m.nodes| == 1 && m.nodes[0].Nested?)
  {
  }

  lemma StopsAtFirst(code: seq<Stmt>, inContract: bool, id: nat, env: Env)
    requires code != [] && MeaningOfStmt(code[0], inContract, id, env).ending != Done
    ensures StopsAt(code, inContract, id, env, 0)
  {
    var first := MeaningOfStmt(code[0], inContract, id, env);
    RaisingStatementBuilds(code[0], inContract, id, env);
    assert code[..0] == [] && [] + first.nodes == first.nodes;
    assert MeaningOf([], inContract, id, env) == Meaning([], [], env, id, Done);
  }

  lemma StopsLater(code: seq<Stmt>, inContract: bool, id: nat, env: Env, i: nat)
    requires code != [] && MeaningOfStmt(code[0], inContract, id, env).ending == Done
    requires var first := MeaningOfStmt(code[0], inContract, id, env);
      StopsAt(code[1..], inContract, first.nextId, first.env, i)
    ensures StopsAt(code, inContract, id, env, i + 1)
  {
    var first := MeaningOfStmt(code[0], inContract, id, env);
    var before := MeaningOf(code[1..][..i], inContract, first.nextId, first.env);
    var stopped := MeaningOfStmt(code[1..][i], inContract, before.nextId, before.env);
    PrefixMeaning(code, inContract, id, env, i + 1);
    assert code[1..][i] == code[i + 1];
    assert first.nodes + (before.nodes + stopped.nodes) == first.nodes + before.nodes + stopped.nodes;
  }

  /** Code that raises has built everything before the statement that raised. */
  lemma {:induction false} RaisingKeepsWhatWasBuilt(code: seq<Stmt>, inContract: bool, id: nat, env: Env)
    returns (i: nat)
    requires MeaningOf(code, inContract, id, env).ending != Done
    ensures StopsAt(code, inContract, id, env, i)
    decreases code
  {
    var first := MeaningOfStmt(code[0], inContract, id, env);
    if first.ending != Done {
      i := 0;
      StopsAtFirst(code, inContract, id, env);
    } else {
      var j := RaisingKeepsWhatWasBuilt(code[1..], inContract, first.nextId, first.env);
      i := j + 1;
      StopsLater(code, inContract, id, env, j);
    }
  }

  /**
   An exception leaks, leaving a builder or a diverted block behind, exactly when a statement of
   the code itself lets it out of a lambda in its expression: a `with` block puts the current
   block back even when code or lambdas inside it raise.
   */
  lemma {:induction false} LeaksExactlyWhen(code: seq<Stmt>, inContract: bool, id: nat, env: Env)
    ensures MeaningOf(code, inContract, id, env).ending == Raised(true)
       <==> exists i :: 0 <= i < |code| && LeaksAt(code, inContract, id, env, i)
    decreases code
  {
    if code != [] {
      var first := MeaningOfStmt(code[0], inContract, id, env);
      assert code[..0] == [];
      assert LeaksAt(code, inContract, id, env, 0) <==> first.ending == Raised(true);
      forall i | 0 < i < |code|
        ensures LeaksAt(code, inContract, id, env, i) <==>
          first.ending == Done && LeaksAt(code[1..], inContract, first.nextId, first.env, i - 1)
      {
        LeaksLater(code, inContract, id, env, i);
      }
      if first.ending == Done {
        var rest := code[1..];
        LeaksExactlyWhen(rest, inContract, first.nextId, first.env);
        if j :| 0 <= j < |rest| && LeaksAt(rest, inContract, first.nextId, first.env, j) {
          assert LeaksAt(code, inContract, id, env, j + 1);
        }
      }
    }
  }

  /** The shortest code that leaks: one command whose argument is a lambda that raises. */
  lemma BareLambdasLeak(command: string, inContract: bool, id: nat)
    ensures var code := [Emit(command, Lam("", false, [Raise], None))];
      && MeaningOf(code, inContract, id, map[]).ending == Raised(true)
      && MeaningOf([With(command, Leaf(""), code)], true, id, map[]).ending == Raised(false)
  {
    var raising := Lam("", false, [Raise], None);
    var code := [Emit(command, raising)];
    assert MeaningOf([Raise], true, id + 1, map[]).ending == Raised(false);
    assert MeaningOfStmt(code[0], inContract, id, map[]).ending == Raised(true);
    assert MeaningOfStmt(code[0], true, id, map[]).ending == Raised(true);
    assert MeaningOf(code, true, id, map[]).ending == Raised(true);
    var caught := With(command, Leaf(""), code);
    assert TreeOf(Leaf(""), id, map[]) == Evaluated(TreeLeaf(""), id, Done);
    assert MeaningOfStmt(caught, true, id, map[]).ending == Raised(false);
    assert MeaningOf([caught], true, id, map[]) == MeaningOfStmt(caught, true, id, map[]);
  }

  predicate LambdaFree(e: Exp)
    decreases e
  {
    match e
    case Leaf(_) => true
    case Ref(_) => true
    case Op(_, args) => forall i :: 0 <= i < |args| ==> LambdaFree(args[i])
    case Lam(_, _, _, _) => false
  }

  lemma {:induction false} LambdaFreeCannotLeak(e: Exp, id: nat, env: Env)
    requires LambdaFree(e)
    ensures TreeOf(e, id, env).ending != Raised(true) && TreeOf(e, id, env).nextId == id
    decreases e, 1
  {
    if e.Op? { LambdaFreeArgsCannotLeak(e.args, id, env); }
  }

  lemma {:induction false} LambdaFreeArgsCannotLeak(es: seq<Exp>, id: nat, env: Env)
    requires forall i :: 0 <= i < |es| ==> LambdaFree(es[i])
    ensures TreesOf(es, id, env).ending != Raised(true) && TreesOf(es, id, env).nextId == id
    decreases es, 0
  {
    if es != [] {
      LambdaFreeCannotLeak(es[0], id, env);
      LambdaFreeArgsCannotLeak(es[1..], id, env);
    }
  }

  predicate LambdaFreeAtTop(code: seq<Stmt>) {
    forall i :: 0 <= i < |code| ==> code[i].Raise? || LambdaFree(code[i].arg)
  }

  /** In particular nothing leaks from code that builds no lambda outside its `with` blocks, however often it uses them. */
  lemma OnlyTopLevelLambdasLeak(code: seq<Stmt>, inContract: bool, id: nat, env: Env)
    requires LambdaFreeAtTop(code)
    ensures MeaningOf(code, inContract, id, env).ending != Raised(true)
  {
    LeaksExactlyWhen(code, inContract, id, env);
    forall i | 0 <= i < |code| ensures !LeaksAt(code, inContract, id, env, i) {
      if !code[i].Raise? {
        var before := MeaningOf(code[..i], inContract, id, env);
        LambdaFreeCannotLeak(code[i].arg, before.nextId, before.env);
      }
    }
  }

  // ---------- lambda ids name lambdas ----------

  /** All lambdas in a tree, at any depth. */
  ghost function LambdasIn(tree: Tree): set<Tree>
    decreases tree
  {
    match tree
    case TreeLeaf(_) => {}
    case TreeOp(_, args) => LambdasInAll(args)
    case TreeLambda(_, _, body, _) => {tree} + Lambdas(body)
  }

  ghost function LambdasInAll(trees: seq<Tree>): set<Tree>
    decreases trees
  {
    if trees == [] then {} else LambdasIn(trees[0]) + LambdasInAll(trees[1..])
  }

  ghost function Lambdas(nodes: seq<Node>): set<Tree>
    decreases nodes
  {
    if nodes == [] then {} else LambdasOf(nodes[0]) + Lambdas(nodes[1..])
  }

  ghost function LambdasOf(node: Node): set<Tree>
    decreases node
  {
    LambdasIn(node.arg) + if node.Nested? then Lambdas(node.body) else {}
  }

  ghost predicate EnvWithin(env: Env, lambdas: set<Tree>) {
    forall n :: n in env ==> LambdasIn(env[n]) <= lambdas
  }

  /** An id below `high` belongs to one lambda only. */
  ghost predicate Identified(lambdas: set<Tree>, high: nat) {
    && (forall t :: t in lambdas ==> t.TreeLambda? && t.id < high)
    && (forall t, u :: t in lambdas && u in lambdas && t.id == u.id ==> t == u)
  }

  /** `all` adds to `known` only lambdas with new ids. */
  ghost predicate Extends(known: set<Tree>, low: nat, all: set<Tree>, high: nat) {
    && known <= all && low <= high && Identified(all, high)
    && forall t :: t in all ==> t in known || low <= t.id
  }

  lemma {:induction false} LambdasAppend(a: seq<Node>, b: seq<Node>)
    ensures Lambdas(a + b) == Lambdas(a) + Lambdas(b)
    decreases |a|
  {
    if a == [] {
      assert a + b == b;
    } else {
      assert (a + b)[0] == a[0] && (a + b)[1..] == a[1..] + b;
      LambdasAppend(a[1..], b);
    }
  }

  lemma LambdasOfSimple(command: string, tree: Tree)
    ensures Lambdas([Simple(command, tree)]) == LambdasIn(tree)
    ensures forall name :: LambdasIn(TreeOp(name, [tree])) == LambdasIn(tree)
  {
    assert Lambdas([Simple(command, tree)][1..]) == {};
    assert LambdasInAll([tree]) == LambdasIn(tree) + LambdasInAll([tree][1..]);
  }

  lemma LambdasOfNested(command: string, tree: Tree, body: seq<Node>, locals: seq<string>)
    ensures Lambdas([Nested(command, tree, body, locals)]) == LambdasIn(tree) + Lambdas(body)
  {
    assert Lambdas([Nested(command, tree, body, locals)][1..]) == {};
  }

  lemma {:induction false} CodeIdentifies(code: seq<Stmt>, inContract: bool, id: nat, env: Env, known: set<Tree>)
    returns (all: set<Tree>)
    requires EnvWithin(env, known) && Identified(known, id)
    ensures var m := MeaningOf(code, inContract, id, env);
      Extends(known, id, all, m.nextId) && Lambdas(m.nodes) <= all && EnvWithin(m.env, all)
    decreases code
  {
    all := known;
    if code != [] {
      var first := MeaningOfStmt(code[0], inContract, id, env);
      var mid := StmtIdentifies(code[0], inContract, id, env, known);
      all := mid;
      if first.ending == Done {
        var rest := MeaningOf(code[1..], inContract, first.nextId, first.env);
        all := CodeIdentifies(code[1..], inContract, first.nextId, first.env, mid);
        LambdasAppend(first.nodes, rest.nodes);
      }
    }
  }

  lemma {:induction false} StmtIdentifies(stmt: Stmt, inContract: bool, id: nat, env: Env, known: set<Tree>)
    returns (all: set<Tree>)
    requires EnvWithin(env, known) && Identified(known, id)
    ensures var m := MeaningOfStmt(stmt, inContract, id, env);
      Extends(known, id, all, m.nextId) && Lambdas(m.nodes) <= all && EnvWithin(m.env, all)
    decreases stmt
  {
    all := known;
    if !stmt.Raise? {
      var a := TreeOf(stmt.arg, id, env);
      all := TreeIdentifies(stmt.arg, id, env, known);
      match stmt
      case Emit(command, _) => LambdasOfSimple(command, a.value);
      case DefineLocal(name, _) =>
        LambdasOfSimple("defineLocal", TreeOp(name, [a.value]));
        LambdasOfSimple("", a.value);
      case With(command, _, body) =>
        if a.ending == Done && inContract {
          var inner := MeaningOf(body, true, a.nextId, env);
          all := CodeIdentifies(body, true, a.nextId, env, all);
          LambdasOfNested(command, a.value, inner.nodes, inner.locals);
        }
      case _ =>
    }
  }

  lemma {:induction false} TreeIdentifies(e: Exp, id: nat, env: Env, known: set<Tree>) returns (all: set<Tree>)
    requires EnvWithin(env, known) && Identified(known, id)
    ensures var t := TreeOf(e, id, env); Extends(known, id, all, t.nextId) && LambdasIn(t.value) <= all
    decreases e
  {
    all := known;
    match e
    case Leaf(_) =>
    case Ref(_) =>
    case Op(_, args) => all := TreesIdentify(args, id, env, known);
    case Lam(_, autoResult, body, returned) =>
      var inner := MeaningOf(body, true, id + 1, env);
      all := CodeIdentifies(body, true, id + 1, env, known);
      if inner.ending == Done && returned.Some? {
        var r := TreeOf(returned.value, inner.nextId, inner.env);
        all := TreeIdentifies(returned.value, inner.nextId, inner.env, all);
        LambdasOfSimple("result", r.value);
        LambdasAppend(inner.nodes, [Simple("result", r.value)]);
      }
      var t := TreeOf(e, id, env);
      if t.ending == Done { all := all + {t.value}; }
  }

  lemma {:induction false} TreesIdentify(es: seq<Exp>, id: nat, env: Env, known: set<Tree>) returns (all: set<Tree>)
    requires EnvWithin(env, known) && Identified(known, id)
    ensures var ts := TreesOf(es, id, env); Extends(known, id, all, ts.nextId) && LambdasInAll(ts.value) <= all
    decreases es
  {
    all := known;
    if es != [] {
      var first := TreeOf(es[0], id, env);
      all := TreeIdentifies(es[0], id, env, known);
      if first.ending == Done {
        var rest := TreesOf(es[1..], first.nextId, env);
        all := TreesIdentify(es[1..], first.nextId, env, all);
        assert ([first.value] + rest.value)[1..] == rest.value;
      }
    }
  }

  /**
   However often and wherever lambdas are used, an id in a built tree belongs to one lambda:
   distinct lambdas have distinct ids, and those built by the code have new ones.
   */
  lemma LambdaIdsIdentify(code: seq<Stmt>, inContract: bool, id: nat, env: Env, known: set<Tree>)
    requires EnvWithin(env, known) && Identified(known, id)
    ensures var m := MeaningOf(code, inContract, id, env);
      && (forall t :: t in Lambdas(m.nodes) ==> t.TreeLambda? && (t in known || id <= t.id < m.nextId))
      && (forall t, u :: t in Lambdas(m.nodes) && u in Lambdas(m.nodes) && t.id == u.id ==> t == u)
  {
    var all := CodeIdentifies(code, inContract, id, env, known);
  }

  /** A lambda built once and used twice puts its id into the tree twice. */
  lemma BuiltOnceUsedTwice(id: nat)
    ensures var f := Lam("x", false, [], None);
      var m := MeaningOf([Bind("f", f), Emit("a", Ref("f")), Emit("b", Ref("f"))], true, id, map[]);
      var t := TreeLambda(id, "x", [], []);
      m.nodes == [Simple("a", t), Simple("b", t)] && m.nextId == id + 1 && Lambdas(m.nodes) == {t}
  {
    var f := Lam("x", false, [], None);
    var t := TreeLambda(id, "x", [], []);
    var env := map["f" := t];
    var tail := [Emit("b", Ref("f"))];
    assert MeaningOf([], true, id + 1, map[]) == Meaning([], [], map[], id + 1, Done);
    assert TreeOf(f, id, map[]) == Evaluated(t, id + 1, Done);
    assert tail[1..] == [];
    assert MeaningOf(tail, true, id + 1, env).nodes == [Simple("b", t)];
    var uses := [Emit("a", Ref("f")), Emit("b", Ref("f"))];
    assert uses[1..] == tail;
    assert MeaningOf(uses, true, id + 1, env).nodes == [Simple("a", t)] + [Simple("b", t)];
    var code := [Bind("f", f), Emit("a", Ref("f")), Emit("b", Ref("f"))];
    assert code[1..] == uses;
    LambdasOfSimple("a", t);
    LambdasOfSimple("b", t);
    LambdasAppend([Simple("a", t)], [Simple("b", t)]);
    assert LambdasIn(t) == {t};
  }

  // ---------- lambdas used where they are built ----------

  predicate RefFree(e: Exp)
    decreases e
  {
    match e
    case Leaf(_) => true
    case Ref(_) => false
    case Op(_, args) => forall i :: 0 <= i < |args| ==> RefFree(args[i])
    case Lam(_, _, body, returned) => RefFreeCode(body) && (returned.Some? ==> RefFree(returned.value))
  }

  predicate RefFreeCode(code: seq<Stmt>)
    decreases code
  {
    forall i :: 0 <= i < |code| ==>
      code[i].Raise? || (RefFree(code[i].arg) && (code[i].With? ==> RefFreeCode(code[i].body)))
  }

  function Ids(nodes: seq<Node>): seq<nat>
    decreases nodes
  {
    if nodes == [] then [] else IdsOf(nodes[0]) + Ids(nodes[1..])
  }

  function IdsOf(node: Node): seq<nat>
    decreases node
  {
    IdsIn(node.arg) + if node.Nested? then Ids(node.body) else []
  }

  function IdsIn(tree: Tree): seq<nat>
    decreases tree
  {
    match tree
    case TreeLeaf(_) => []
    case TreeOp(_, args) => IdsInAll(args)
    case TreeLambda(id, _, body, _) => [id] + Ids(body)
  }

  function IdsInAll(trees: seq<Tree>): seq<nat>
    decreases trees
  {
    if trees == [] then [] else IdsIn(trees[0]) + IdsInAll(trees[1..])
  }

  ghost predicate Ascending(ids: seq<nat>, low: nat, high: nat) {
    && low <= high
    && (forall i :: 0 <= i < |ids| ==> low <= ids[i] < high)
    && (forall i, j :: 0 <= i < j < |ids| ==> ids[i] < ids[j])
  }

  lemma AscendingAppends(a: seq<nat>, b: seq<nat>, low: nat, mid: nat, high: nat)
    requires Ascending(a, low, mid) && Ascending(b, mid, high)
    ensures Ascending(a + b, low, high)
  {
  }

  lemma {:induction false} IdsAppend(a: seq<Node>, b: seq<Node>)
    ensures Ids(a + b) == Ids(a) + Ids(b)
    decreases |a|
  {
    if a == [] {
      assert a + b == b;
    } else {
      assert (a + b)[0] == a[0] && (a + b)[1..] == a[1..] + b;
      IdsAppend(a[1..], b);
    }
  }

  lemma IdsWithResult(id: nat, nodes: seq<Node>, r: Tree)
    ensures [id] + Ids(nodes) + IdsIn(r) == [id] + Ids(nodes + [Simple("result", r)])
  {
    var result := Simple("result", r);
    IdsAppend(nodes, [result]);
    assert Ids([result]) == IdsOf(result) + Ids([]);
  }

  lemma IdsOfDefinition(name: string, v: Tree)
    ensures Ids([Simple("defineLocal", TreeOp(name, [v]))]) == IdsIn(v)
  {
    var node := Simple("defineLocal", TreeOp(name, [v]));
    assert IdsInAll([v]) == IdsIn(v) + IdsInAll([]);
    assert Ids([node]) == IdsOf(node) + Ids([]);
    assert IdsIn(node.arg) == IdsInAll([v]);
  }

  /**
   In code that uses every lambda once, where it is built, the ids in the tree are pairwise
   distinct and ascend in the order the tree is read.
   */
  lemma {:induction false} LambdaIdsAscend(code: seq<Stmt>, inContract: bool, id: nat, env: Env)
    requires RefFreeCode(code)
    ensures var m := MeaningOf(code, inContract, id, env); Ascending(Ids(m.nodes), id, m.nextId)
    decreases code
  {
    if code != [] {
      var first := MeaningOfStmt(code[0], inContract, id, env);
      StmtIdsAscend(code[0], inContract, id, env);
      if first.ending == Done {
        var rest := MeaningOf(code[1..], inContract, first.nextId, first.env);
        LambdaIdsAscend(code[1..], inContract, first.nextId, first.env);
        IdsAppend(first.nodes, rest.nodes);
        AscendingAppends(Ids(first.nodes), Ids(rest.nodes), id, first.nextId, rest.nextId);
      }
    }
  }

  lemma {:induction false} StmtIdsAscend(stmt: Stmt, inContract: bool, id: nat, env: Env)
    requires stmt.Raise? || (RefFree(stmt.arg) && (stmt.With? ==> RefFreeCode(stmt.body)))
    ensures var m := MeaningOfStmt(stmt, inContract, id, env); Ascending(Ids(m.nodes), id, m.nextId)
    decreases stmt
  {
    if !stmt.Raise? {
      var a := TreeOf(stmt.arg, id, env);
      TreeIdsAscend(stmt.arg, id, env);
      if stmt.DefineLocal? { IdsOfDefinition(stmt.name, a.value); }
      if stmt.With? && a.ending == Done {
        var inner := MeaningOf(stmt.body, true, a.nextId, env);
        LambdaIdsAscend(stmt.body, true, a.nextId, env);
        AscendingAppends(IdsIn(a.value), Ids(inner.nodes), id, a.nextId, inner.nextId);
      }
    }
  }

  lemma {:induction false} TreeIdsAscend(e: Exp, id: nat, env: Env)
    requires RefFree(e)
    ensures Ascending(IdsIn(TreeOf(e, id, env).value), id, TreeOf(e, id, env).nextId)
    decreases e
  {
    match e
    case Leaf(_) =>
    case Op(_, args) => TreesIdsAscend(args, id, env);
    case Lam(_, autoResult, body, returned) =>
      var inner := MeaningOf(body, true, id + 1, env);
      LambdaIdsAscend(body, true, id + 1, env);
      AscendingAppends([id], Ids(inner.nodes), id, id + 1, inner.nextId);
      if inner.ending == Done && returned.Some? {
        var r := TreeOf(returned.value, inner.nextId, inner.env);
        TreeIdsAscend(returned.value, inner.nextId, inner.env);
        if r.ending == Done && autoResult {
          IdsWithResult(id, inner.nodes, r.value);
          AscendingAppends([id] + Ids(inner.nodes), IdsIn(r.value), id, inner.nextId, r.nextId);
        }
      }
  }

  lemma {:induction false} TreesIdsAscend(es: seq<Exp>, id: nat, env: Env)
    requires forall i :: 0 <= i < |es| ==> RefFree(es[i])
    ensures Ascending(IdsInAll(TreesOf(es, id, env).value), id, TreesOf(es, id, env).nextId)
    decreases es
  {
    if es != [] {
      var first := TreeOf(es[0], id, env);
      TreeIdsAscend(es[0], id, env);
      if first.ending == Done {
        var rest := TreesOf(es[1..], first.nextId, env);
        TreesIdsAscend(es[1..], first.nextId, env);
        AscendingAppends(IdsIn(first.value), IdsInAll(rest.value), id, first.nextId, rest.nextId);
      }
    }
  }
}
