/**
  Building a match from submitted form fields and storing it. A missing field raises the form's key
  error, a numeric field that does not parse raises `int`'s value error, and an integer column that
  does not fit SQLite's signed 64-bit INTEGER makes the commit raise an overflow error; in every
  case nothing is stored.
*/
module Submission {
  import opened Wrappers
  import opened MatchRecord

  /** The submitted form: field name to the first value given for it. */
  type Form = map<string, string>

  /** Python's `int` on a string, left abstract: `None` where it raises. */
  type IntParser = string -> Option<int>

  datatype SubmitError = MissingField(field: string) | NotAnInteger(field: string) | Overflow

  /** Bounds of SQLite's INTEGER storage class, a signed 64-bit integer. */
  const MinInteger: int := -0x8000_0000_0000_0000
  const MaxInteger: int := 0x7FFF_FFFF_FFFF_FFFF

  predicate FitsInteger(n: int)
  {
    MinInteger <= n <= MaxInteger
  }

  /** Every integer column of the record can be bound to an SQLite INTEGER. */
  predicate Storable(m: Match)
  {
    && FitsInteger(m.games) && FitsInteger(m.score1) && FitsInteger(m.score2)
    && FitsInteger(m.ace1) && FitsInteger(m.ace2) && FitsInteger(m.pointDiff)
  }

  predicate IsTextField(name: string)
  {
    name in {"date", "shop", "player1", "player2", "cue1", "cue2", "game_type"}
  }

  predicate IsIntField(name: string)
  {
    name in {"score1", "score2", "games", "ace1", "ace2"}
  }

  predicate ParsesAt(form: Form, parse: IntParser, name: string)
  {
    name in form && parse(form[name]).Some?
  }

  /** Every required text field present and every numeric field present and parsing. */
  predicate Acceptable(form: Form, parse: IntParser)
  {
    && "date" in form && "shop" in form && "player1" in form && "player2" in form
    && "cue1" in form && "cue2" in form && "game_type" in form
    && ParsesAt(form, parse, "score1") && ParsesAt(form, parse, "score2")
    && ParsesAt(form, parse, "games") && ParsesAt(form, parse, "ace1") && ParsesAt(form, parse, "ace2")
  }

  function Lookup(form: Form, name: string): Result<string, SubmitError>
  {
    if name in form then Success(form[name]) else Failure(MissingField(name))
  }

  function LookupInt(form: Form, parse: IntParser, name: string): Result<int, SubmitError>
  {
    var text :- Lookup(form, name);
    match parse(text)
    case Some(n) => Success(n)
    case None => Failure(NotAnInteger(name))
  }

  /**
    The record a submission creates, with the lookups in the order the handler performs them:
    both scores, the winner's name, then the columns in declaration order. `comment` is optional.
  */
  function BuildMatch(form: Form, parse: IntParser): (r: Result<Match, SubmitError>)
    ensures r.Success? <==> Acceptable(form, parse)
    ensures r.Success? ==> Resolved(r.value)
    ensures r.Success? ==>
      && r.value.date == form["date"] && r.value.shop == form["shop"]
      && r.value.player1 == form["player1"] && r.value.player2 == form["player2"]
      && r.value.cue1 == form["cue1"] && r.value.cue2 == form["cue2"]
      && r.value.gameType == form["game_type"]
      && Some(r.value.score1) == parse(form["score1"]) && Some(r.value.score2) == parse(form["score2"])
      && Some(r.value.games) == parse(form["games"])
      && Some(r.value.ace1) == parse(form["ace1"]) && Some(r.value.ace2) == parse(form["ace2"])
      && r.value.comment == (if "comment" in form then form["comment"] else "")
    ensures r.Failure? ==> !r.error.Overflow?
    ensures r.Failure? && r.error.MissingField? ==>
      r.error.field !in form && (IsTextField(r.error.field) || IsIntField(r.error.field))
    ensures r.Failure? && r.error.NotAnInteger? ==>
      IsIntField(r.error.field) && r.error.field in form && parse(form[r.error.field]).None?
  {
    var score1 :- LookupInt(form, parse, "score1");
    var score2 :- LookupInt(form, parse, "score2");
    var winner :- if score1 > score2 then Lookup(form, "player1")
                  else if score2 > score1 then Lookup(form, "player2")
                  else Success(DrawLabel);
    var date :- Lookup(form, "date");
    var shop :- Lookup(form, "shop");
    var games :- LookupInt(form, parse, "games");
    var player1 :- Lookup(form, "player1");
    var player2 :- Lookup(form, "player2");
    var ace1 :- LookupInt(form, parse, "ace1");
    var ace2 :- LookupInt(form, parse, "ace2");
    var cue1 :- Lookup(form, "cue1");
    var cue2 :- Lookup(form, "cue2");
    var gameType :- Lookup(form, "game_type");
    var comment := if "comment" in form then form["comment"] else "";
    var pointDiff := Resolve(player1, player2, score1, score2).pointDiff;
    Success(Match(date, shop, games, player1, player2, score1, score2, ace1, ace2, cue1, cue2,
                  gameType, winner, pointDiff, comment))
  }

  /** The store after a submission, and what the submission produced. */
  datatype Submitted = Submitted(store: seq<Match>, outcome: Result<Match, SubmitError>)

  /**
    Commits the built record: appended after the earlier records when it was built and every
    integer column fits, the store left as it was otherwise. The point difference can overflow even
    when both scores fit.
  */
  function Submit(store: seq<Match>, form: Form, parse: IntParser): (r: Submitted)
    ensures r.outcome.Success? <==> Acceptable(form, parse) && Storable(BuildMatch(form, parse).value)
    ensures r.outcome.Success? || !r.outcome.error.Overflow? ==> r.outcome == BuildMatch(form, parse)
    ensures r.outcome.Failure? && r.outcome.error.Overflow? ==>
      BuildMatch(form, parse).Success? && !Storable(BuildMatch(form, parse).value)
    ensures r.outcome.Failure? ==> r.store == store
    ensures r.outcome.Success? ==>
      |r.store| == |store| + 1 && r.store[..|store|] == store && r.store[|store|] == r.outcome.value
    ensures (forall i :: 0 <= i < |store| ==> Resolved(store[i])) ==>
      forall i :: 0 <= i < |r.store| ==> Resolved(r.store[i])
    ensures (forall i :: 0 <= i < |store| ==> Storable(store[i])) ==>
      forall i :: 0 <= i < |r.store| ==> Storable(r.store[i])
  {
    match BuildMatch(form, parse)
    case Success(m) =>
      if Storable(m) then Submitted(store + [m], Success(m)) else Submitted(store, Failure(Overflow))
    case Failure(e) => Submitted(store, Failure(e))
  }

  /** Scores that fit can still give a point difference that does not, and nothing is stored. */
  lemma PointDiffOverflow(store: seq<Match>, form: Form, parse: IntParser)
    requires Acceptable(form, parse)
    requires parse(form["score1"]) == Some(MaxInteger) && parse(form["score2"]) == Some(-1)
    requires FitsInteger(parse(form["games"]).value)
    requires FitsInteger(parse(form["ace1"]).value) && FitsInteger(parse(form["ace2"]).value)
    ensures Submit(store, form, parse) == Submitted(store, Failure(Overflow))
  {
  }
}
