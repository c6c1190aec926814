/**
 * Events and the elements of the transition table (macros/src/parser/event.rs).
 *
 * `Parse` reads the event part of a transition, `+ Name` or `+ Name(Type)`,
 * from a token stream and returns the event with the tokens that follow it.
 * Only a few kinds of type may be carried by an event.
 */
module Events {
  import opened Types

  /** An event reference: its name and its optional payload type. */
  datatype Event = Event(ident: string, dataType: Option<Ty>)

  /** One alternative in a table slot: guard, action and destination state. */
  datatype Transition = Transition(guard: Option<GuardExpression>, action: Option<AsyncIdent>, outState: string)

  /** All alternatives for one (state, event) pair, in declaration order. */
  datatype EventMapping = EventMapping(inState: string, event: string, transitions: seq<Transition>)

  /**
   * The token trees the event parser sees.  A type is one token here: the
   * type grammar belongs to the front end, and the parser only asks for "a
   * type" and then inspects its kind.
   */
  datatype Token =
    | Plus
    | Ident(name: string)
    | Parens(content: seq<Token>)
    | TypeToken(ty: Ty)
    | Punct(ch: char)

  datatype ParseError =
    | ExpectedPlus
    | ExpectedIdent
    | ExpectedType
    | UnsupportedEventType
    | UnexpectedToken

  /** The kinds of type an event may carry. */
  predicate SupportedEventType(k: TypeKind)
  {
    match k
    case Array | Path | Ptr | Reference | Slice | Tuple => true
    case _ => false
  }

  /** The input starts with a parenthesised group. */
  predicate IsParens(input: seq<Token>)
  {
    |input| > 0 && input[0].Parens?
  }

  /**
   * Parses `+ Ident` and, when a parenthesised group follows, the payload
   * type inside it.  Tokens left inside the parentheses after the type are
   * an error.
   */
  function Parse(input: seq<Token>): (r: Result<(Event, seq<Token>), ParseError>)
    // the `+` and the identifier are mandatory
    ensures (input == [] || input[0] != Plus) ==> r == Err(ExpectedPlus)
    ensures input != [] && input[0] == Plus && (|input| == 1 || !input[1].Ident?) ==> r == Err(ExpectedIdent)
    ensures r.Ok? ==> 2 <= |input| && input[0] == Plus && input[1].Ident? && r.value.0.ident == input[1].name
    // no parenthesis: no payload, and nothing beyond the identifier is consumed
    ensures 2 <= |input| && input[0] == Plus && input[1].Ident? && !IsParens(input[2..]) ==>
              r == Ok((Event(input[1].name, None), input[2..]))
    // a parenthesised type: accepted exactly when its kind is supported
    ensures 3 <= |input| && input[0] == Plus && input[1].Ident? &&
            input[2].Parens? && |input[2].content| == 1 && input[2].content[0].TypeToken? ==>
              var ty := input[2].content[0].ty;
              r == if SupportedEventType(ty.kind) then Ok((Event(input[1].name, Some(ty)), input[3..])) else Err(UnsupportedEventType)
    ensures r.Ok? && r.value.0.dataType.Some? ==> SupportedEventType(r.value.0.dataType.value.kind)
    ensures r.Ok? ==> |r.value.1| < |input|
  {
    if input == [] || input[0] != Plus then Err(ExpectedPlus)
    else if |input| == 1 || !input[1].Ident? then Err(ExpectedIdent)
    else
      var ident := input[1].name;
      var rest := input[2..];
      if IsParens(rest) then
        var content := rest[0].content;
        if content == [] || !content[0].TypeToken? then Err(ExpectedType)
        else if !SupportedEventType(content[0].ty.kind) then Err(UnsupportedEventType)
        else if |content| > 1 then Err(UnexpectedToken)
        else Ok((Event(ident, Some(content[0].ty)), rest[1..]))
      else
        Ok((Event(ident, None), rest))
  }

  /** The tokens that spell an event: `+ Name` or `+ Name(Type)`. */
  function Tokens(e: Event): seq<Token>
  {
    [Plus, Ident(e.ident)] + (if e.dataType.Some? then [Parens([TypeToken(e.dataType.value)])] else [])
  }

  /**
   * Every event whose payload, if any, has a supported kind is read back from
   * its own tokens, whatever follows them (unless a stray group follows an
   * event without payload, which would be taken as its payload).
   */
  lemma ParseTokens(e: Event, rest: seq<Token>)
    requires e.dataType.Some? ==> SupportedEventType(e.dataType.value.kind)
    requires e.dataType.None? ==> !IsParens(rest)
    ensures Parse(Tokens(e) + rest) == Ok((e, rest))
  {
    var input := Tokens(e) + rest;
    if e.dataType.Some? {
      assert input[2] == Parens([TypeToken(e.dataType.value)]);
      assert input[3..] == rest;
    } else {
      assert input[2..] == rest;
    }
  }

  /** Conversely, whatever the parser accepts is an event's tokens followed by the rest. */
  lemma TokensOfParse(input: seq<Token>)
    requires Parse(input).Ok?
    ensures input == Tokens(Parse(input).value.0) + Parse(input).value.1
  {
    var (e, rest) := Parse(input).value;
    if e.dataType.Some? {
      assert input[2].content == [TypeToken(e.dataType.value)];
      assert input == input[..3] + input[3..];
    } else {
      assert input == input[..2] + input[2..];
    }
  }

  /** A type of any other kind is refused, whatever surrounds it. */
  lemma UnsupportedKindRefused(name: string, ty: Ty, inside: seq<Token>, rest: seq<Token>)
    requires !SupportedEventType(ty.kind)
    ensures Parse([Plus, Ident(name), Parens([TypeToken(ty)] + inside)] + rest) == Err(UnsupportedEventType)
  {
    var input := [Plus, Ident(name), Parens([TypeToken(ty)] + inside)] + rest;
    assert input[2..][0] == Parens([TypeToken(ty)] + inside);
  }
}
