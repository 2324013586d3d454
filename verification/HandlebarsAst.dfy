/**
 Template syntax trees, as handlebars/compiler/ast.js builds them, and the opcodes that
 the first compiler pass emits.  Whitespace control (`~`) and string-parameter mode are
 outside the model.
 */
module HandlebarsAst {
  import opened Options

  /** A dotted path.  `parts` holds the segments left after `..`, `.` and `this` are taken out. */
  datatype Path = Path(parts: seq<string>, depth: nat, scoped: bool) {
    /** One plain segment: the only kind of path that may name a helper. */
    predicate IsSimple() {
      |parts| == 1 && !scoped && depth == 0
    }

    /** Nothing to look up: the path denotes the context itself. */
    predicate IsContext() {
      parts == [] || parts[0] == ""
    }

    /** The segments looked up after the first. */
    function Rest(): seq<string> {
      if parts == [] then [] else parts[1..]
    }
  }

  datatype Literal = IntegerLiteral(n: int) | BooleanLiteral(b: bool)

  datatype Head = IdHead(path: Path) | DataHead(path: Path)

  datatype Param =
    | SubExpression(sexpr: Sexpr)
    | IdParam(path: Path)
    | DataParam(path: Path)
    | StringParam(text: string)
    | LiteralParam(literal: Literal)

  datatype Pair = Pair(key: string, value: Param)

  datatype Hash = NoHash | HashNode(pairs: seq<Pair>)

  /** `paren` is set by the grammar on expressions written in parentheses. */
  datatype Sexpr = Sexpr(head: Head, params: seq<Param>, hash: Hash, paren: bool, isRoot: bool) {
    predicate EligibleHelper() {
      head.IdHead? && head.path.IsSimple()
    }

    predicate IsHelper() {
      paren || (EligibleHelper() && (params != [] || hash.HashNode?))
    }
  }

  /** The main and `{{else}}` programs of a block; either may be absent. */
  datatype Blocks = Blocks(program: Option<Program>, inverse: Option<Program>) {
    predicate Any() {
      program.Some? || inverse.Some?
    }
  }

  datatype Statement =
    | Content(text: string)
    | Comment
    | Mustache(sexpr: Sexpr, escaped: bool)
    | Block(sexpr: Sexpr, blocks: Blocks)
    | Partial(name: string, context: Option<Path>)

  datatype Program = Program(statements: seq<Statement>)

  datatype Opcode =
    | AppendContent(text: string)
    | Append
    | AppendEscaped
    | GetContext(depth: nat)
    | PushContext
    | LookupOnContext(name: string)
    | Lookup(name: string)
    | LookupData
    | ResolvePossibleLambda
    | PushString(text: string)
    | PushLiteral(literal: Literal)
    | PushProgram(guid: Option<nat>)
    | EmptyHash
    | PushHash
    | AssignToHash(key: string)
    | PopHash
    | InvokeHelper(argc: nat, name: string, isRoot: bool)
    | InvokeKnownHelper(argc: nat, name: string)
    | InvokeAmbiguous(name: string, isBlock: bool)
    | BlockValue
    | AmbiguousBlockValue
    | PushDepth0
    | InvokePartial(name: string)

  /** What one run of the first pass leaves behind: a program's code and its nested programs. */
  datatype Environment = Environment(opcodes: seq<Opcode>, children: seq<Environment>, depths: seq<nat>, isSimple: bool)

  datatype CompileOptions = CompileOptions(knownHelpers: map<string, bool>, knownHelpersOnly: bool, noEscape: bool) {
    /** The caller's table overrides the built-in one, an object with the names every object has. */
    predicate Known(name: string) {
      if name in knownHelpers then knownHelpers[name]
      else
        || name in {"helperMissing", "blockHelperMissing", "each", "if", "unless", "with", "log"}
        || name in {"constructor", "toString", "toLocaleString", "valueOf", "hasOwnProperty", "isPrototypeOf", "propertyIsEnumerable"}
    }
  }
}
