/**
 * The trees the parser builds. They follow the JavaScript shapes: a bare name
 * and a string literal are the same plain string, `null` is `None`, and the
 * object fields of expression nodes (`primary`, `attr`, `binary.left`, ...)
 * become constructor fields.
 */
module Tree {
  import opened Outcomes
  import opened Props

  /** What `readValue` returns: a string, an array, or a flat object. */
  datatype Value =
    | Str(chars: string)
    | Arr(items: seq<Option<Value>>)
    | Obj(entries: Props<Option<Value>>)

  /** What `readExpression` returns. */
  datatype Expr =
    | Num(n: nat)                                              // parseInt of a number token
    | Lit(v: Value)                                            // a value, or a bare name as a plain string
    | Paren(expression: Option<Expr>)                          // { expression }
    | Attr(primary: Expr, attr: Expr)                          // primary..ID and primary[.expr]
    | Prop(primary: Expr, prop: Expr)                          // primary.ID and primary[expr]
    | Call(primary: Expr, params: seq<Option<Expr>>)           // primary(expr, ...)
    | Unary(operator: string, member: Option<Expr>)
    | Binary(left: Option<Expr>, operator: string, right: Option<Expr>)
    | Logical(left: Option<Expr>, operator: string, right: Option<Expr>)
    | Conditional(logical: Option<Expr>, ifTrue: Option<Expr>, ifFalse: Option<Expr>)

  /** What `readIdentifier` returns: `key`, and `index` or `params` when present. */
  datatype EntityId = EntityId(key: string, index: Option<seq<Option<Expr>>>, params: Option<seq<Option<Expr>>>)

  /** What `lolParser` stores under a key. */
  datatype Entry =
    | Plain(value: Option<Value>)
    | Complex(index: Option<seq<Option<Expr>>>, value: Option<Value>, attributes: Option<Props<Option<Value>>>)
    | Macro(params: seq<Option<Expr>>, macro: Option<Expr>)

  /** JavaScript truthiness of an expression: `null`, the number 0 and the empty string are falsy. */
  predicate Truthy(e: Option<Expr>) {
    e.Some? && e.value != Num(0) && e.value != Lit(Str(""))
  }

  /** JavaScript truthiness of a value: `null` and the empty string are falsy; arrays and objects never are. */
  predicate TruthyValue(v: Option<Value>) {
    v.Some? && v.value != Str("")
  }

  /** The name of a plain string in an expression. */
  function Name(id: string): Expr { Lit(Str(id)) }
}
