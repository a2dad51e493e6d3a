/**
 * Pure specifications of the case store's queries and of what its updates do
 * to one case and to one transcript file. The store object itself is in
 * module ResponseSystem; this module describes the list it keeps.
 */
module CaseStore {
  import opened Wrappers
  import opened EmergencyCases

  /** The position of the first case, in list order, whose id is `id`. */
  function IndexOf(cases: seq<Case>, id: int): (r: Option<nat>)
    ensures r.Some? ==> r.value < |cases| && cases[r.value].conversationId == id
    ensures r.Some? ==> forall j :: 0 <= j < r.value ==> cases[j].conversationId != id
    ensures r.None? <==> forall j :: 0 <= j < |cases| ==> cases[j].conversationId != id
  {
    if cases == [] then None
    else if cases[0].conversationId == id then Some(0)
    else match IndexOf(cases[1..], id)
      case None => None
      case Some(k) => Some(k + 1)
  }

  /** What `get_case_by_id` answers: the first case with the id, or nothing. */
  function Lookup(cases: seq<Case>, id: int): Option<Case>
  {
    match IndexOf(cases, id)
    case None => None
    case Some(k) => Some(cases[k])
  }

  /** No two cases share a conversation id. */
  ghost predicate UniqueIds(cases: seq<Case>)
  {
    forall i, j :: 0 <= i < j < |cases| ==> cases[i].conversationId != cases[j].conversationId
  }

  /** With unique ids, looking a case up by its id finds exactly that case. */
  lemma LookupFindsEach(cases: seq<Case>, k: nat)
    requires UniqueIds(cases) && k < |cases|
    ensures IndexOf(cases, cases[k].conversationId) == Some(k)
    ensures Lookup(cases, cases[k].conversationId) == Some(cases[k])
  {
  }

  /** Appending a case keeps every earlier lookup; the new case is found only under an id not seen before. */
  lemma {:induction false} IndexOfAfterAppend(cases: seq<Case>, c: Case, id: int)
    ensures IndexOf(cases + [c], id) ==
              if IndexOf(cases, id).Some? then IndexOf(cases, id)
              else if c.conversationId == id then Some(|cases|)
              else None
  {
    var grown := cases + [c];
    assert forall j :: 0 <= j < |cases| ==> grown[j] == cases[j];
    assert grown[|cases|] == c;
  }

  /** Replacing a case by one with the same id changes no lookup's position. */
  lemma IndexOfAfterReplace(cases: seq<Case>, k: nat, c: Case, id: int)
    requires k < |cases| && c.conversationId == cases[k].conversationId
    ensures IndexOf(cases[k := c], id) == IndexOf(cases, id)
  {
    var changed := cases[k := c];
    assert forall j :: 0 <= j < |cases| ==> changed[j].conversationId == cases[j].conversationId;
  }

  /** `get_open_cases`: the cases not marked closed, in store order. */
  function Open(cases: seq<Case>): (r: seq<Case>)
    ensures |r| <= |cases|
    ensures forall c :: c in r <==> c in cases && !c.closed
  {
    if cases == [] then []
    else
      var last := cases[|cases| - 1];
      Open(cases[..|cases| - 1]) + (if last.closed then [] else [last])
  }

  /** Filtering keeps store order: the open cases of a concatenation are the concatenation of the open cases. */
  lemma {:induction false} OpenConcat(a: seq<Case>, b: seq<Case>)
    ensures Open(a + b) == Open(a) + Open(b)
    decreases |b|
  {
    if b == [] {
      assert a + b == a;
    } else {
      var n := |b| - 1;
      assert (a + b)[..|a + b| - 1] == a + b[..n];
      OpenConcat(a, b[..n]);
    }
  }

  /** The largest id in a non-empty store (Python's `max`). */
  function MaxId(cases: seq<Case>): (m: int)
    requires cases != []
    ensures forall c :: c in cases ==> c.conversationId <= m
    ensures exists c :: c in cases && c.conversationId == m
  {
    var last := cases[|cases| - 1];
    if |cases| == 1 then last.conversationId
    else
      var front := MaxId(cases[..|cases| - 1]);
      assert forall c :: c in cases ==> c in cases[..|cases| - 1] || c == last;
      if front < last.conversationId then last.conversationId else front
  }

  /** `get_next_conversation_id`: 1 for an empty store, otherwise one more than the largest id. */
  function NextId(cases: seq<Case>): (r: int)
    ensures cases == [] ==> r == 1
    ensures forall c :: c in cases ==> c.conversationId < r
    ensures cases != [] ==> exists c :: c in cases && r == c.conversationId + 1
  {
    if cases == [] then 1 else MaxId(cases) + 1
  }

  /** Adding a case under the next id keeps the ids unique, and the next id after that is one larger. */
  lemma FreshIdKeepsUnique(cases: seq<Case>, c: Case)
    requires UniqueIds(cases) && c.conversationId == NextId(cases)
    ensures UniqueIds(cases + [c])
    ensures NextId(cases + [c]) == NextId(cases) + 1
  {
    var grown := cases + [c];
    forall i | 0 <= i < |cases|
      ensures grown[i].conversationId < c.conversationId
    {
      assert grown[i] in cases;
    }
    var r := NextId(grown);
    assert c in grown;
    assert forall x :: x in grown ==> x in cases || x == c;
  }

  /** The transcript file of a case, if it exists. */
  function FileOf(files: map<int, string>, id: int): Option<string>
  {
    if id in files then Some(files[id]) else None
  }

  /** Transcript files are append-only: none disappears and none loses a prefix. */
  ghost predicate TranscriptsGrow(before: map<int, string>, after: map<int, string>)
  {
    forall id :: id in before ==> id in after && before[id] <= after[id]
  }

  /** The header line written the first time a transcript file is created. */
  function Header(callerName: string): string
  {
    "Caller: " + callerName + "\n\n"
  }

  /**
   * The content of a case's transcript file after `add_case`: a new file starts
   * with the header; an existing one is appended to without a header.
   */
  function TranscriptAfterAdd(existing: Option<string>, c: Case): (t: string)
    ensures existing.Some? ==> existing.value <= t
    ensures existing.None? ==> Header(c.callerName) <= t
    ensures |t| == |existing.GetOr(Header(c.callerName))| + |c.conversation| + 2
    ensures t[|t| - |c.conversation| - 2..] == c.conversation + "\n\n"
  {
    existing.GetOr(Header(c.callerName)) + c.conversation + "\n\n"
  }

  /** The content of a transcript file after `add_to_conversation` appends a turn (a missing file is created). */
  function TranscriptAfterAppend(existing: Option<string>, text: string): (t: string)
    ensures existing.Some? ==> existing.value <= t
    ensures |t| == |existing.GetOr("")| + |text| + 2
    ensures t[|t| - |text| - 2..] == text + "\n\n"
  {
    existing.GetOr("") + text + "\n\n"
  }

  /** The case with one more turn of conversation appended on a new line. */
  function WithTurn(c: Case, text: string): (r: Case)
    ensures r.conversation == c.conversation + "\n" + text
    ensures forall g: Field :: g != Conversation ==> Get(r, g) == Get(c, g)
  {
    c.(conversation := c.conversation + "\n" + text)
  }

  /** Appending two turns one after the other equals appending their newline-joined concatenation once. */
  lemma TurnsCompose(c: Case, a: string, b: string)
    ensures WithTurn(WithTurn(c, a), b) == WithTurn(c, a + "\n" + b)
  {
    assert c.conversation + "\n" + a + "\n" + b == c.conversation + "\n" + (a + "\n" + b);
  }
}
