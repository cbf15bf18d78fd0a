/** A decoded stream frame. Every optional JSON member is a Field, so the wrong-type and
    null cases that the validator distinguishes stay visible. Strings are byte strings: one
    char stands for one UTF-8 byte. */
module Frames {
  import opened Collections

  /** A JSON object member: missing, null, of an unexpected type (empty tells whether it is
      an empty string, list or object), or a value of the expected type. */
  datatype Field<+T> = Absent | Null | Wrong(empty: bool) | Is(value: T)

  /** A tool function fragment; more tells whether it has another non-empty member. */
  datatype Function = Function(name: Field<string>, arguments: Field<string>, more: bool)

  datatype Call = NotACall | Call(index: Field<real>, id: Field<string>, kind: Field<string>, fn: Field<Function>)

  datatype Delta = Delta(content: Field<string>, reasoning: Field<string>, role: Field<string>,
                         legacy: Field<Function>, calls: Field<seq<Call>>,
                         extraFields: Field<int>, refusal: Field<int>, rest: map<string, int>)

  datatype Choice = NotAnObject | Choice(index: Field<real>, delta: Field<Delta>, finish: Field<string>)

  datatype Frame = NotJson
                 | Frame(error: Field<int>, code: Field<int>, message: Field<int>,
                         usage: Field<int>, choices: Field<seq<Choice>>)

  const NO_DELTA := Delta(Absent, Absent, Absent, Absent, Absent, Absent, Absent, map[])

  /** The string a well-typed member carries; every other case reads as "". */
  function Str(f: Field<string>): string {
    if f.Is? then f.value else ""
  }

  /** A choice or tool index: absent and null mean 0, otherwise an integer in 0..65535. */
  function IndexOf(f: Field<real>): Option<nat> {
    match f
    case Absent => Some(0)
    case Null => Some(0)
    case Wrong(_) => None
    case Is(v) => if 0.0 <= v <= 65535.0 && v == v.Floor as real then Some(v.Floor) else None
  }

  predicate EmptyString(f: Field<string>) {
    match f
    case Absent => true
    case Null => true
    case Wrong(empty) => empty
    case Is(s) => s == ""
  }

  predicate EmptyOpaque(f: Field<int>) {
    f.Absent? || f.Null? || (f.Wrong? && f.empty)
  }

  predicate EmptyLegacy(f: Field<Function>) {
    match f
    case Absent => true
    case Null => true
    case Wrong(empty) => empty
    case Is(fn) => EmptyString(fn.name) && EmptyString(fn.arguments) && !fn.more
  }

  /** An error marker: a non-null error or code, or a message without choices. */
  predicate ErrorObject(f: Frame)
    requires f.Frame?
  {
    (f.error.Wrong? || f.error.Is?) || (f.code.Wrong? || f.code.Is?) || (!f.message.Absent? && f.choices.Absent?)
  }
}
