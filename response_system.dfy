/**
 * The emergency case registry (`EmergencyResponseSystem`): an ordered list of
 * cases, written in full to the data file after every change, with one
 * append-only transcript file per conversation id.
 *
 * The data file is the ghost field `saved` (the list it holds, or `None` when
 * it is missing or not valid JSON) and the transcript files are the ghost
 * map `transcripts` from conversation id to file content.
 */
module ResponseSystem {
  import opened Wrappers
  import opened EmergencyCases
  import opened CaseStore
  import opened ResponderDemand

  class EmergencyResponseSystem {
    /** The cases, in the order they were added. */
    var cases: seq<Case>
    /** What the data file holds. */
    ghost var saved: Option<seq<Case>>
    /** The content of each `conversation_<id>.txt` file that exists. */
    ghost var transcripts: map<int, string>

    /** The in-memory list never diverges from the data file (an unreadable file was loaded as an empty list). */
    ghost predicate Valid()
      reads this
    {
      saved == Some(cases) || (saved == None && cases == [])
    }

    /**
     * Loads the store. `stored` is what the data file parses to, `None` when it is
     * missing or not valid JSON, in which case the store starts empty. `files` are the
     * transcript files already present.
     */
    constructor (stored: Option<seq<Case>>, ghost files: map<int, string>)
      ensures Valid()
      ensures cases == stored.GetOr([]) && saved == stored && transcripts == files
    {
      cases := stored.GetOr([]);
      saved := stored;
      transcripts := files;
    }

    /** The search loop of `get_case_by_id`: the position of the first case with the id. */
    method FindIndex(id: int) returns (k: Option<nat>)
      ensures k == IndexOf(cases, id)
    {
      var i := 0;
      while i < |cases|
        invariant 0 <= i <= |cases|
        invariant forall j :: 0 <= j < i ==> cases[j].conversationId != id
      {
        if cases[i].conversationId == id {
          return Some(i);
        }
        i := i + 1;
      }
      return None;
    }

    /** `get_case_by_id`: the first case with the id, or nothing; the store is not changed. */
    method GetCaseById(id: int) returns (r: Option<Case>)
      ensures r == Lookup(cases, id)
      ensures r.Some? ==> r.value in cases && r.value.conversationId == id
      ensures r.None? <==> forall c :: c in cases ==> c.conversationId != id
    {
      var k := FindIndex(id);
      r := match k case None => None case Some(i) => Some(cases[i]);
    }

    /** `get_open_cases`: exactly the cases not marked closed, in store order. */
    method GetOpenCases() returns (open: seq<Case>)
      ensures open == Open(cases)
      ensures forall c :: c in open <==> c in cases && !c.closed
    {
      open := Open(cases);
    }

    /** `get_next_conversation_id`: 1 on an empty store, otherwise the largest id plus one. */
    method GetNextConversationId() returns (id: int)
      ensures cases == [] ==> id == 1
      ensures forall c :: c in cases ==> c.conversationId < id
      ensures cases != [] ==> exists c :: c in cases && id == c.conversationId + 1
    {
      id := NextId(cases);
    }

    /**
     * `add_case`: appends the case (no check for a duplicate id), saves the list,
     * and writes the case's transcript file, with a header only if the file is new.
     */
    method AddCase(c: Case)
      requires Valid()
      modifies this
      ensures Valid()
      ensures cases == old(cases) + [c] && saved == Some(cases)
      ensures transcripts == old(transcripts)[c.conversationId := TranscriptAfterAdd(FileOf(old(transcripts), c.conversationId), c)]
      ensures TranscriptsGrow(old(transcripts), transcripts)
    {
      cases := cases + [c];
      saved := Some(cases);
      transcripts := transcripts[c.conversationId := TranscriptAfterAdd(FileOf(transcripts, c.conversationId), c)];
    }

    /**
     * `update_case`: applies the keyword arguments, in order, to the first case with
     * the id, skipping names that are not fields; saves only when a case matched.
     */
    method UpdateCase(id: int, kwargs: seq<(string, Value)>) returns (found: bool)
      requires Valid() && Bindable(kwargs)
      modifies this`cases, this`saved
      ensures Valid()
      ensures found == IndexOf(old(cases), id).Some?
      ensures !found ==> cases == old(cases) && saved == old(saved)
      ensures found ==> var k := IndexOf(old(cases), id).value;
                        cases == old(cases)[k := ApplyAll(old(cases)[k], kwargs)] && saved == Some(cases)
      ensures found ==> cases[IndexOf(old(cases), id).value].conversationId == id
      ensures forall x :: IndexOf(cases, x) == IndexOf(old(cases), x)
    {
      var i := 0;
      while i < |cases|
        invariant 0 <= i <= |cases|
        invariant cases == old(cases) && saved == old(saved)
        invariant forall j :: 0 <= j < i ==> cases[j].conversationId != id
      {
        if cases[i].conversationId == id {
          var c := cases[i];
          var n := 0;
          while n < |kwargs|
            invariant 0 <= n <= |kwargs|
            invariant c == ApplyAll(cases[i], kwargs[..n])
          {
            assert kwargs[..n + 1][..n] == kwargs[..n];
            c := ApplyOne(c, kwargs[n]);
            n := n + 1;
          }
          assert kwargs[..n] == kwargs;
          ApplyAllKeepsId(cases[i], kwargs);
          forall x ensures IndexOf(cases[i := c], x) == IndexOf(cases, x) {
            IndexOfAfterReplace(cases, i, c, x);
          }
          cases := cases[i := c];
          saved := Some(cases);
          return true;
        }
        i := i + 1;
      }
      return false;
    }

    /**
     * `add_to_conversation`: on the first case with the id, appends a new line and
     * the text to its conversation, saves, and appends the text to its transcript file.
     */
    method AddToConversation(id: int, text: string) returns (ok: bool)
      requires Valid()
      modifies this
      ensures Valid()
      ensures ok == IndexOf(old(cases), id).Some?
      ensures !ok ==> cases == old(cases) && saved == old(saved) && transcripts == old(transcripts)
      ensures ok ==> var k := IndexOf(old(cases), id).value;
                     && cases == old(cases)[k := WithTurn(old(cases)[k], text)]
                     && saved == Some(cases)
                     && transcripts == old(transcripts)[id := TranscriptAfterAppend(FileOf(old(transcripts), id), text)]
      ensures TranscriptsGrow(old(transcripts), transcripts)
    {
      var k := FindIndex(id);
      if k.None? {
        return false;
      }
      cases := cases[k.value := WithTurn(cases[k.value], text)];
      saved := Some(cases);
      transcripts := transcripts[id := TranscriptAfterAppend(FileOf(transcripts, id), text)];
      return true;
    }

    /** `update_responders`: replaces the responder list of the first case with the id, without merging. */
    method UpdateResponders(id: int, responders: seq<string>) returns (ok: bool)
      requires Valid()
      modifies this`cases, this`saved
      ensures Valid()
      ensures ok == IndexOf(old(cases), id).Some?
      ensures !ok ==> cases == old(cases) && saved == old(saved)
      ensures ok ==> var k := IndexOf(old(cases), id).value;
                     && cases == old(cases)[k := old(cases)[k].(firstRespondersDemanded := responders)]
                     && saved == Some(cases)
    {
      var k := FindIndex(id);
      if k.None? {
        return false;
      }
      cases := cases[k.value := cases[k.value].(firstRespondersDemanded := responders)];
      saved := Some(cases);
      return true;
    }

    /**
     * `update_case_field`: sets one named field of the first case with the id.
     * Fails, changing nothing, when no case has the id or the name is not a field
     * (or the value is not of the field's kind).
     */
    method UpdateCaseField(id: int, field: string, value: Value) returns (ok: bool)
      requires Valid()
      modifies this`cases, this`saved
      ensures Valid()
      ensures ok <==> IndexOf(old(cases), id).Some? && FieldNamed(field).Some? && Fits(FieldNamed(field).value, value)
      ensures !ok ==> cases == old(cases) && saved == old(saved)
      ensures ok ==> var k := IndexOf(old(cases), id).value;
                     && cases == old(cases)[k := SetField(old(cases)[k], FieldNamed(field).value, value).value]
                     && saved == Some(cases)
    {
      var k := FindIndex(id);
      if k.None? {
        return false;
      }
      var f := FieldNamed(field);
      if f.None? {
        return false;
      }
      var updated := SetField(cases[k.value], f.value, value);
      if updated.None? {
        return false;
      }
      cases := cases[k.value := updated.value];
      saved := Some(cases);
      return true;
    }

    /**
     * `count_responders_needed`: for each responder type, how many entries of the
     * open cases' responder lists name it; only types in demand appear.
     */
    method CountRespondersNeeded() returns (counts: map<string, int>)
      ensures forall r :: r in counts <==> Demand(cases, r) > 0
      ensures forall r :: r in counts ==> counts[r] == Demand(cases, r) && counts[r] >= 1
    {
      var open := GetOpenCases();
      counts := map[];
      var i := 0;
      while i < |open|
        invariant 0 <= i <= |open|
        invariant Tallies(counts, open[..i], [])
      {
        var responders := open[i].firstRespondersDemanded;
        counts := TallyResponders(counts, open[..i], responders);
        assert open[i] in open;
        TallyCase(counts, open[..i], open[i]);
        assert open[..i + 1] == open[..i] + [open[i]];
        i := i + 1;
      }
      assert open[..i] == open;
      TallyComplete(counts, cases);
    }
  }

  /** The inner loop of `count_responders_needed`: counts every entry of one open case's responder list. */
  method TallyResponders(counts: map<string, int>, ghost done: seq<Case>, responders: seq<string>)
    returns (tally: map<string, int>)
    requires Tallies(counts, done, [])
    ensures Tallies(tally, done, responders)
  {
    tally := counts;
    var j := 0;
    while j < |responders|
      invariant 0 <= j <= |responders|
      invariant Tallies(tally, done, responders[..j])
    {
      var r := responders[j];
      TallyEntry(tally, done, responders[..j], r);
      if r !in tally {
        tally := tally[r := 0];
      }
      tally := tally[r := tally[r] + 1];
      assert responders[..j + 1] == responders[..j] + [r];
      j := j + 1;
    }
    assert responders[..j] == responders;
  }

  /** The three cases the self-test opens (transcripts shortened). */
  const HeartAttack := Case("Heart attack", "John Doe", ["paramedic"], 1, 9, false, "Caller: heart attack")
  const CarAccident := Case("Car accident", "Jane Smith", ["paramedic", "police"], 2, 8, false, "Caller: car crash")
  const BuildingFire := Case("Building fire", "Mike Johnson", ["firefighter", "paramedic"], 3, 10, false, "Caller: fire")

  /** A dispatcher's turn the self-test appends to the first conversation. */
  const DispatcherTurn := "Dispatcher: Is the patient conscious?"

  /** The self-test's cases after its field updates. */
  const UpdatedCases := [WithTurn(HeartAttack, DispatcherTurn).(needSeverity := 10),
                         CarAccident.(firstRespondersDemanded := ["paramedic", "police", "firefighter"]),
                         BuildingFire.(closed := true)]

  /** In the updated cases two open-case entries ask for a paramedic: case 1's and case 2's. */
  lemma ScenarioDemand()
    ensures Demand(UpdatedCases, "paramedic") == 2
  {
    var u := UpdatedCases;
    assert u == [u[0]] + [u[1]] + [u[2]];
    DemandConcat([u[0]] + [u[1]], [u[2]], "paramedic");
    DemandConcat([u[0]], [u[1]], "paramedic");
    DemandSingle(u[0], "paramedic");
    DemandSingle(u[1], "paramedic");
    DemandSingle(u[2], "paramedic");
    assert u[1].firstRespondersDemanded == ["paramedic"] + ["police", "firefighter"];
  }

  /** The first part of the self-test: three cases opened on a store with no files yet, then one turn added. */
  method OpenScenarioCases() returns (ers: EmergencyResponseSystem)
    ensures fresh(ers) && ers.Valid()
    ensures ers.cases == [WithTurn(HeartAttack, DispatcherTurn), CarAccident, BuildingFire]
    ensures 1 in ers.transcripts && 2 in ers.transcripts && 3 in ers.transcripts
    ensures ers.transcripts[2] == Header("Jane Smith") + "Caller: car crash\n\n"
  {
    ers := new EmergencyResponseSystem(None, map[]);
    ers.AddCase(HeartAttack);
    ers.AddCase(CarAccident);
    ers.AddCase(BuildingFire);
    assert ers.cases == [HeartAttack, CarAccident, BuildingFire];
    var ok := ers.AddToConversation(1, DispatcherTurn);
    assert ok;
  }

  /** The self-test's field updates, by name and by responder list, each reported as successful. */
  method UpdateScenarioCases(ers: EmergencyResponseSystem)
    requires ers.Valid() && ers.cases == [WithTurn(HeartAttack, DispatcherTurn), CarAccident, BuildingFire]
    modifies ers
    ensures ers.Valid() && ers.cases == UpdatedCases && ers.transcripts == old(ers.transcripts)
  {
    assert FieldNamed("need_severity") == Some(NeedSeverity);
    assert FieldNamed("closed") == Some(Closed);
    var ok := ers.UpdateCaseField(1, "need_severity", Int(10));
    assert ok;
    assert ers.cases == [UpdatedCases[0], CarAccident, BuildingFire];
    assert ers.cases[1].conversationId == 2;
    ok := ers.UpdateResponders(2, ["paramedic", "police", "firefighter"]);
    assert ok;
    assert ers.cases == [UpdatedCases[0], UpdatedCases[1], BuildingFire];
    assert ers.cases[2].conversationId == 3;
    ok := ers.UpdateCaseField(3, "closed", Bool(true));
    assert ok;
  }

  /**
   * The self-test: open, converse, update, reload from the saved list, then
   * check the lookups, the transcript files and the paramedic demand
   * (case 3 is closed, so its paramedic no longer counts).
   */
  method MultipleConversationsScenario() returns (paramedics: int)
    ensures paramedics == 2
  {
    var ers := OpenScenarioCases();
    UpdateScenarioCases(ers);
    assert ers.saved == Some(ers.cases);
    var reloaded := new EmergencyResponseSystem(Some(ers.cases), ers.transcripts);
    assert reloaded.cases == UpdatedCases;
    assert |reloaded.cases| == 3;
    var c1 := reloaded.GetCaseById(1);
    assert c1.Some? && c1.value.needSeverity == 10;
    var c2 := reloaded.GetCaseById(2);
    assert c2.Some? && "firefighter" in c2.value.firstRespondersDemanded;
    var c3 := reloaded.GetCaseById(3);
    assert c3.Some? && c3.value.closed;
    assert 1 in reloaded.transcripts && 2 in reloaded.transcripts && 3 in reloaded.transcripts;
    var counts := reloaded.CountRespondersNeeded();
    ScenarioDemand();
    assert "paramedic" in counts;
    paramedics := counts["paramedic"];
  }
}
