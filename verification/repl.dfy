/**
 * One round of the read-eval-print loop: a line is either a command to
 * quit or a term, which is parsed, given a type in the empty context,
 * evaluated and printed, normal form first and type second, as
 * `value : type`. Reading the line and printing are left to the caller.
 */
module Repl {
  import opened Wrappers
  import opened Syntax
  import opened Values
  import opened Checker
  import opened Parser
  import opened ParserLaws
  import opened Safety

  /** Why a line produces no value: it does not parse, it has no type, or its evaluation aborts. */
  datatype Failure =
    | ParseFailure
    | Type(error: TypeError)
    | Aborted(panic: Panic)

  /**
   * What one round of the loop does. A parse or type error is reported and
   * the loop goes on; a panic, whether evaluating the line or a type inside
   * it, is not caught and ends the program.
   */
  datatype Reply =
    | Quit
    | Answer(result: Result<string, Failure>)
    | Crash(panic: Panic)

  /** The panic that `handle` did not catch, if any. */
  function PanicOf(r: Result<string, Failure>): (p: Option<Panic>)
    ensures p.Some? <==> r.Err? && (r.error.Aborted? || (r.error.Type? && r.error.error.Panicked?))
  {
    match r
    case Err(Aborted(p)) => Some(p)
    case Err(Type(Panicked(p))) => Some(p)
    case _ => None
  }

  /** `handle`: parse, infer in the empty context, evaluate in the empty environment, print both normal forms. */
  function Handle(line: string): (r: Result<string, Failure>)
    ensures r == Err(ParseFailure) <==> Parse(line) == None
  {
    match Parse(line)
    case None => Err(ParseFailure)
    case Some(e) =>
      match Infer(e, map[]) {
        case Err(err) => Err(Type(err))
        case Ok(t) =>
          match Eval(e, map[]) {
            case Err(p) => Err(Aborted(p))
            case Ok(v) => Ok(Show(Quote(v)) + " : " + Show(Quote(t)))
          }
      }
  }

  /**
   * The loop body: `:q` and `:quit` end the session, any other trimmed line
   * is handled; a panic while handling it ends the program.
   */
  function Respond(line: string): (r: Reply)
    ensures r.Quit? <==> Trim(line) == ":q" || Trim(line) == ":quit"
    ensures r.Crash? <==> !r.Quit? && PanicOf(Handle(Trim(line))).Some?
    ensures r.Crash? ==> Some(r.panic) == PanicOf(Handle(Trim(line)))
    ensures r.Answer? ==> r.result == Handle(Trim(line))
  {
    var cmd := Trim(line);
    if cmd == ":q" || cmd == ":quit" then Quit
    else
      match PanicOf(Handle(cmd))
      case Some(p) => Crash(p)
      case None => Answer(Handle(cmd))
  }

  /** The quit commands are not terms, so reserving them hides no input the parser would accept. */
  lemma QuitIsNotTerm()
    ensures Parse(":q") == None
    ensures Parse(":quit") == None
  {
    I64None(":q");
    NoToken(":q");
    NoTokenLine(":q");
    I64None(":quit");
    NoToken(":quit");
    NoTokenLine(":quit");
  }

  /** A constant is displayed as one token, which reads back as itself. */
  lemma ConstantReadsBack(v: Value)
    requires !v.Neutral?
    ensures Parse(Show(Quote(v))) == Some(Quote(v))
  {
    assert Simple(Quote(v));
    ParseShow(Quote(v));
  }

  /**
   * For an accepted term the loop never hits `unreachable!()`, and checking
   * never fails by a panic. The only abort left is an `i64` overflow,
   * and only for a term of type `Int`; otherwise the line prints the
   * term's value, a constant that reads back as itself.
   */
  lemma HandleAccepted(line: string, e: Expr, t: Type)
    requires Parse(line) == Some(e)
    requires Infer(e, map[]) == Ok(t)
    ensures Handle(line) != Err(Aborted(Unreachable))
    ensures Handle(line).Err? ==> Handle(line) == Err(Aborted(Overflow)) && t == Value.Int
    ensures Handle(line).Ok? ==>
      var v := Eval(e, map[]).value;
      && Handle(line).value == Show(Quote(v)) + " : " + Show(Quote(t))
      && Fits(v, t)
      && Parse(Show(Quote(v))) == Some(Quote(v))
  {
    AcceptedTermsEvaluate(e, t);
    match Eval(e, map[])
    case Ok(v) =>
      ConstantReadsBack(v);
    case Err(p) =>
      assert p == Overflow;
  }

  /** A line is rejected for a type error only with the checker's own verdict, never with a panic. */
  lemma HandleTypeErrors(line: string, e: Expr)
    requires Parse(line) == Some(e)
    ensures Handle(line).Err? && Handle(line).error.Type? <==> Infer(e, map[]).Err?
    ensures Handle(line).Err? && Handle(line).error.Type? ==> !Handle(line).error.error.Panicked?
  {
    var ctx: Context := map[];
    assert WfContext(ctx);
    InferNeverPanics(e, ctx);
  }

  /** Never an internal panic, whatever the line. */
  lemma HandleNeverUnreachable(line: string)
    ensures Handle(line) != Err(Aborted(Unreachable))
  {
    match Parse(line)
    case None =>
    case Some(e) =>
      if Infer(e, map[]).Ok? {
        HandleAccepted(line, e, Infer(e, map[]).value);
      }
  }

  /** The program ends through a panic only on an `i64` overflow, of a line that has type `Int`. */
  lemma CrashIsOverflow(line: string)
    ensures Respond(line).Crash? ==>
      && Respond(line).panic == Overflow
      && Parse(Trim(line)).Some?
      && Infer(Parse(Trim(line)).value, map[]) == Ok(Value.Int)
  {
    var cmd := Trim(line);
    match Parse(cmd)
    case None =>
    case Some(e) =>
      HandleTypeErrors(cmd, e);
      if Infer(e, map[]).Ok? {
        HandleAccepted(cmd, e, Infer(e, map[]).value);
      }
  }
}
