/**
 * The `EmergencyCase` record and the field-by-name update that
 * `update_case` and `update_case_field` perform with `hasattr`/`setattr`.
 *
 * Attribute access by name is modelled over a closed set of fields: `FieldNamed`
 * plays `hasattr` (it recognises the seven dataclass attribute names) and
 * `SetField` plays `setattr` with a value of the field's own kind.
 */
module EmergencyCases {
  import opened Wrappers

  /** One emergency incident under active or closed handling. */
  datatype Case = Case(
    injuryType: string,
    callerName: string,
    firstRespondersDemanded: seq<string>,
    conversationId: int,
    needSeverity: int,
    closed: bool,
    conversation: string)

  /** The attributes of a case that can be named in an update. */
  datatype Field =
    | InjuryType
    | CallerName
    | FirstRespondersDemanded
    | ConversationId
    | NeedSeverity
    | Closed
    | Conversation

  /** A dynamically typed value handed to an update. */
  datatype Value =
    | Text(text: string)
    | TextList(items: seq<string>)
    | Int(number: int)
    | Bool(flag: bool)

  /** The attribute name of a field, as the dataclass declares it. */
  function FieldName(f: Field): string
  {
    match f
    case InjuryType => "injury_type"
    case CallerName => "caller_name"
    case FirstRespondersDemanded => "first_responders_demanded"
    case ConversationId => "conversation_id"
    case NeedSeverity => "need_severity"
    case Closed => "closed"
    case Conversation => "conversation"
  }

  /** `hasattr(case, name)`: the field an attribute name designates, if any. */
  function FieldNamed(name: string): (f: Option<Field>)
    ensures f.Some? ==> FieldName(f.value) == name
    ensures f.None? ==> forall g: Field :: FieldName(g) != name
  {
    if name == "injury_type" then Some(InjuryType)
    else if name == "caller_name" then Some(CallerName)
    else if name == "first_responders_demanded" then Some(FirstRespondersDemanded)
    else if name == "conversation_id" then Some(ConversationId)
    else if name == "need_severity" then Some(NeedSeverity)
    else if name == "closed" then Some(Closed)
    else if name == "conversation" then Some(Conversation)
    else None
  }

  /** Every field is found again under its own name, so distinct fields have distinct names. */
  lemma FieldNameRoundTrip(f: Field)
    ensures FieldNamed(FieldName(f)) == Some(f)
  {
    match f
    case InjuryType =>
    case CallerName =>
    case FirstRespondersDemanded =>
    case ConversationId =>
    case NeedSeverity =>
    case Closed =>
    case Conversation =>
  }

  /** `getattr(case, field)`. */
  function Get(c: Case, f: Field): Value
  {
    match f
    case InjuryType => Text(c.injuryType)
    case CallerName => Text(c.callerName)
    case FirstRespondersDemanded => TextList(c.firstRespondersDemanded)
    case ConversationId => Int(c.conversationId)
    case NeedSeverity => Int(c.needSeverity)
    case Closed => Bool(c.closed)
    case Conversation => Text(c.conversation)
  }

  /** A value of the kind the field holds. */
  predicate Fits(f: Field, v: Value)
  {
    match f
    case InjuryType | CallerName | Conversation => v.Text?
    case FirstRespondersDemanded => v.TextList?
    case ConversationId | NeedSeverity => v.Int?
    case Closed => v.Bool?
  }

  /**
   * `setattr(case, field, v)`: afterwards reading the field gives `v` and every
   * other field reads as before. A value of the wrong kind is refused.
   */
  function SetField(c: Case, f: Field, v: Value): (r: Option<Case>)
    ensures r.Some? <==> Fits(f, v)
    ensures r.Some? ==> Get(r.value, f) == v
    ensures r.Some? ==> forall g: Field :: g != f ==> Get(r.value, g) == Get(c, g)
  {
    match f
    case InjuryType => if v.Text? then Some(c.(injuryType := v.text)) else None
    case CallerName => if v.Text? then Some(c.(callerName := v.text)) else None
    case FirstRespondersDemanded => if v.TextList? then Some(c.(firstRespondersDemanded := v.items)) else None
    case ConversationId => if v.Int? then Some(c.(conversationId := v.number)) else None
    case NeedSeverity => if v.Int? then Some(c.(needSeverity := v.number)) else None
    case Closed => if v.Bool? then Some(c.(closed := v.flag)) else None
    case Conversation => if v.Text? then Some(c.(conversation := v.text)) else None
  }

  /** One keyword argument of `update_case` sets its field, if the name is a field and the value fits. */
  predicate SetsField(kwarg: (string, Value), g: Field)
  {
    kwarg.0 == FieldName(g) && Fits(g, kwarg.1)
  }

  /** One step of the loop over the keyword arguments: unknown names are skipped. */
  function ApplyOne(c: Case, kwarg: (string, Value)): Case
  {
    match FieldNamed(kwarg.0)
    case None => c
    case Some(f) => SetField(c, f, kwarg.1).GetOr(c)
  }

  /** One argument changes the field it sets, and only that one. */
  lemma ApplyOneField(c: Case, kwarg: (string, Value), g: Field)
    ensures Get(ApplyOne(c, kwarg), g) == if SetsField(kwarg, g) then kwarg.1 else Get(c, g)
  {
    FieldNameRoundTrip(g);
    match FieldNamed(kwarg.0)
    case None =>
    case Some(f) =>
      if f != g {
        FieldNameRoundTrip(f);
      }
  }

  /** The keyword arguments of `update_case`, applied in the order given. */
  function ApplyAll(c: Case, kwargs: seq<(string, Value)>): Case
  {
    if kwargs == [] then c else ApplyOne(ApplyAll(c, kwargs[..|kwargs| - 1]), kwargs[|kwargs| - 1])
  }

  /** A field that no keyword argument of `update_case` sets keeps its value. */
  lemma {:induction false} ApplyAllUntouched(c: Case, kwargs: seq<(string, Value)>, g: Field)
    requires forall i :: 0 <= i < |kwargs| ==> !SetsField(kwargs[i], g)
    ensures Get(ApplyAll(c, kwargs), g) == Get(c, g)
  {
    if kwargs != [] {
      var n := |kwargs| - 1;
      assert forall i :: 0 <= i < n ==> kwargs[..n][i] == kwargs[i];
      ApplyAllUntouched(c, kwargs[..n], g);
      ApplyOneField(ApplyAll(c, kwargs[..n]), kwargs[n], g);
    }
  }

  /** A field that keyword arguments of `update_case` set ends with the value of the last of them. */
  lemma {:induction false} ApplyAllLastWins(c: Case, kwargs: seq<(string, Value)>, g: Field, i: nat)
    requires i < |kwargs| && SetsField(kwargs[i], g)
    requires forall j :: i < j < |kwargs| ==> !SetsField(kwargs[j], g)
    ensures Get(ApplyAll(c, kwargs), g) == kwargs[i].1
  {
    var n := |kwargs| - 1;
    var front := kwargs[..n];
    ApplyOneField(ApplyAll(c, front), kwargs[n], g);
    if i < n {
      assert forall j :: i < j < n ==> front[j] == kwargs[j];
      ApplyAllLastWins(c, front, g, i);
    }
  }

  /**
   * Keyword arguments that Python can bind in a call of
   * `update_case(self, conversation_id, **kwargs)`: none of them repeats one of
   * the named parameters (such a call raises TypeError before the body runs).
   */
  predicate Bindable(kwargs: seq<(string, Value)>)
  {
    forall i :: 0 <= i < |kwargs| ==> kwargs[i].0 != "conversation_id" && kwargs[i].0 != "self"
  }

  /** Bindable keyword arguments never renumber a case. */
  lemma ApplyAllKeepsId(c: Case, kwargs: seq<(string, Value)>)
    requires Bindable(kwargs)
    ensures ApplyAll(c, kwargs).conversationId == c.conversationId
  {
    ApplyAllUntouched(c, kwargs, ConversationId);
  }
}
