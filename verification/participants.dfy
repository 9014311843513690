/** The leaderboard store (`ParticipantsContext`): participants with their
    points, the operations that add, remove, score, fill with samples and
    clear, and the load and save effects. Unlike the other stores it starts
    empty and restores whatever list was saved, the empty one included. */
module Participants {
  import opened Common
  import opened Storage

  const PARTICIPANTS_KEY := "taskup_participants_v1"

  datatype Participant = Participant(
    id: string,
    name: string,
    school: Option<string>,
    avatar: Option<string>,
    points: int)

  /** What `addParticipant` is given: a participant without id and points. */
  datatype ParticipantInput = ParticipantInput(name: string, school: Option<string>, avatar: Option<string>)

  /** `{id: uuidv4(), points: 0, ...p}` */
  function NewParticipant(p: ParticipantInput, freshId: string): (r: Participant)
    ensures r.id == freshId && r.points == 0
    ensures r.name == p.name && r.school == p.school && r.avatar == p.avatar
  {
    Participant(freshId, p.name, p.school, p.avatar, 0)
  }

  function NotId(id: string): Participant -> bool {
    (x: Participant) => x.id != id
  }

  function HasId(id: string): Participant -> bool {
    (x: Participant) => x.id == id
  }

  /** `prev.filter(x => x.id !== id)` */
  function Removed(ps: seq<Participant>, id: string): (r: seq<Participant>)
    ensures |r| <= |ps|
    ensures forall x :: x in r <==> x in ps && x.id != id
  {
    Filter(ps, NotId(id))
  }

  /** Removing an unknown id changes nothing; removing keeps the order of
      the rest on any split of the list. */
  lemma RemovedFacts(a: seq<Participant>, b: seq<Participant>, id: string)
    ensures (forall x :: x in a ==> x.id != id) ==> Removed(a, id) == a
    ensures Removed(a + b, id) == Removed(a, id) + Removed(b, id)
  {
    if forall x :: x in a ==> x.id != id {
      FilterKeepsAll(a, NotId(id));
    }
    FilterConcat(a, b, NotId(id));
  }

  /** `Math.max(0, points + delta)` */
  function Clamp(n: int): (r: int)
    ensures r >= 0 && r >= n && (n >= 0 ==> r == n)
  {
    if n < 0 then 0 else n
  }

  function Scored(delta: int): Participant -> Participant {
    (x: Participant) => x.(points := Clamp(x.points + delta))
  }

  /** `changePoints(id, delta)` on the list: the matching participants get
      `max(0, points + delta)`, every other field and participant is kept. */
  function PointsChanged(ps: seq<Participant>, id: string, delta: int): (r: seq<Participant>)
    ensures |r| == |ps|
    ensures forall i :: 0 <= i < |ps| && ps[i].id != id ==> r[i] == ps[i]
    ensures forall i :: 0 <= i < |ps| && ps[i].id == id ==>
              r[i].points >= 0 && r[i].points >= ps[i].points + delta
              && (ps[i].points + delta >= 0 ==> r[i].points == ps[i].points + delta)
              && r[i] == ps[i].(points := r[i].points)
  {
    MapWhere(ps, HasId(id), Scored(delta))
  }

  /** The worked case: 5 points less 100 gives 0, not -95. */
  lemma ClampedAtZero(x: Participant)
    requires x.points == 5
    ensures PointsChanged([x], x.id, -100) == [x.(points := 0)]
  {
  }

  /** The three sample participants, with the given fresh ids. */
  function Sample(id1: string, id2: string, id3: string): (r: seq<Participant>)
    ensures |r| == 3 && r[0].points == 1240 && r[1].points == 980 && r[2].points == 760
    ensures r[0].id == id1 && r[1].id == id2 && r[2].id == id3
  {
    [ Participant(id1, "María Pérez", Some("Uni A"), Some(""), 1240),
      Participant(id2, "Carlos R.", Some("Uni B"), Some(""), 980),
      Participant(id3, "Ana G.", Some("Uni A"), Some(""), 760) ]
  }

  /** The load effect: a non-empty stored text that parses to an array
      becomes the list; otherwise the list stays empty. A stored value
      that fails to parse is left for the save effect to overwrite. */
  function Restored(entries: map<string, string>, json: Json<Participant>): (r: seq<Participant>)
    ensures r != [] ==> PARTICIPANTS_KEY in entries && json.parse(entries[PARTICIPANTS_KEY]) == Array(r)
    ensures (PARTICIPANTS_KEY in entries && entries[PARTICIPANTS_KEY] != ""
             && json.parse(entries[PARTICIPANTS_KEY]).Array?) ==> r == json.parse(entries[PARTICIPANTS_KEY]).items
    ensures (PARTICIPANTS_KEY !in entries || entries[PARTICIPANTS_KEY] == ""
             || !json.parse(entries[PARTICIPANTS_KEY]).Array?) ==> r == []
  {
    if PARTICIPANTS_KEY in entries && entries[PARTICIPANTS_KEY] != "" then
      match json.parse(entries[PARTICIPANTS_KEY])
      case Array(xs) => xs
      case _ => []
    else []
  }

  /** Every saved list, the empty one included, is restored as it was. */
  lemma RestoreAfterSave(entries: map<string, string>, json: Json<Participant>, ps: seq<Participant>)
    requires Lawful(json)
    ensures Restored(entries[PARTICIPANTS_KEY := json.stringify(ps)], json) == ps
  {
    assert json.parse(json.stringify(ps)) == Array(ps);
  }

  class ParticipantStore {
    var participants: seq<Participant>
    const storage: LocalStorage
    const json: Json<Participant>

    ghost predicate Saved()
      reads this, storage
    {
      PARTICIPANTS_KEY in storage.entries
      && storage.entries[PARTICIPANTS_KEY] == json.stringify(participants)
    }

    /** Mounting: the list starts empty, the load effect restores the saved
        list, and the save effect leaves its text in storage. */
    constructor (storage: LocalStorage, json: Json<Participant>)
      modifies storage
      ensures this.storage == storage && this.json == json
      ensures participants == Restored(old(storage.entries), json)
      ensures storage.entries == old(storage.entries)[PARTICIPANTS_KEY := json.stringify(participants)]
      ensures Saved()
    {
      this.storage := storage;
      this.json := json;
      participants := [];
      new;
      var raw := storage.Get(PARTICIPANTS_KEY);
      if raw.Some? && raw.value != "" {
        var parsed := json.parse(raw.value);
        if parsed.Array? {
          participants := parsed.items;
        }
      }
      Save();
    }

    method Save()
      modifies storage
      ensures storage.entries == old(storage.entries)[PARTICIPANTS_KEY := json.stringify(participants)]
      ensures Saved()
    {
      storage.SetItem(PARTICIPANTS_KEY, json.stringify(participants));
    }

    /** `addParticipant`: one new participant first, with no points. */
    method AddParticipant(p: ParticipantInput, freshId: string)
      modifies this, storage
      ensures participants == [NewParticipant(p, freshId)] + old(participants)
      ensures storage.entries == old(storage.entries)[PARTICIPANTS_KEY := json.stringify(participants)]
      ensures Saved()
    {
      participants := [NewParticipant(p, freshId)] + participants;
      Save();
    }

    method RemoveParticipant(id: string)
      modifies this, storage
      ensures participants == Removed(old(participants), id)
      ensures storage.entries == old(storage.entries)[PARTICIPANTS_KEY := json.stringify(participants)]
      ensures Saved()
    {
      participants := Removed(participants, id);
      Save();
    }

    method ChangePoints(id: string, delta: int)
      modifies this, storage
      ensures participants == PointsChanged(old(participants), id, delta)
      ensures storage.entries == old(storage.entries)[PARTICIPANTS_KEY := json.stringify(participants)]
      ensures Saved()
    {
      participants := PointsChanged(participants, id, delta);
      Save();
    }

    /** `loadSample`: the whole list becomes the three sample rows. */
    method LoadSample(id1: string, id2: string, id3: string)
      modifies this, storage
      ensures participants == Sample(id1, id2, id3)
      ensures storage.entries == old(storage.entries)[PARTICIPANTS_KEY := json.stringify(participants)]
      ensures Saved()
    {
      participants := Sample(id1, id2, id3);
      Save();
    }

    /** `resetAll` */
    method ResetAll()
      modifies this, storage
      ensures participants == []
      ensures storage.entries == old(storage.entries)[PARTICIPANTS_KEY := json.stringify([])]
      ensures Saved()
    {
      participants := [];
      Save();
    }
  }
}
