/** The task store (`TasksContext`): the list of tasks, the four operations
    that replace it, the loader that fills it from storage or from the two
    sample tasks, and the save effect that writes it back after every
    change. */
module Tasks {
  import opened Common
  import opened Storage

  const TASKS_KEY := "taskup_tasks_v1"

  /** A task. `prioridad` is not declared by the store, but the edit form
      merges it into a task through `updateTask`, and it is kept from then
      on; tasks created by `addTask` never carry one. */
  datatype Task = Task(
    id: string,
    title: string,
    description: Option<string>,
    materia: Option<string>,
    fechaEntrega: Option<string>,
    completada: bool,
    points: int,
    groupId: Option<string>,
    prioridad: Option<string>)

  /** The two sample tasks shown when nothing usable is stored. */
  const SeedTasks: seq<Task> := [
    Task("t1_mock", "Tarea suelta de ejemplo", Some("Esta es una tarea sin materia"), None,
         Some("2025-10-25"), false, 50, None, None),
    Task("t2_mock", "Entregar ensayo de Cálculo", Some("Mínimo 5 páginas"), Some("Cálculo"),
         Some("2025-10-28"), false, 100, None, None)
  ]

  /** What callers hand to `addTask`. Callers may pass more than the store
      reads (the task form passes an `id` and a `prioridad`). */
  datatype TaskInput = TaskInput(
    title: string,
    description: Option<string>,
    materia: Option<string>,
    fechaEntrega: Option<string>,
    groupId: Option<string>,
    completada: Option<bool>,
    points: Option<int>,
    id: Option<string>,
    prioridad: Option<string>)

  /** The fields an `updateTask` call sets; `None` for a field it leaves out. */
  datatype TaskPatch = TaskPatch(
    title: Option<string>,
    description: Option<string>,
    materia: Option<string>,
    fechaEntrega: Option<string>,
    completada: Option<bool>,
    points: Option<int>,
    groupId: Option<string>,
    prioridad: Option<string>)

  /** The task `addTask` builds: the five content fields are copied, the
      completion flag and points default to `false` and 50, the id is the
      fresh one whatever the caller passed, and no priority is kept. */
  function NewTask(input: TaskInput, freshId: string): (t: Task)
    ensures t.id == freshId && t.prioridad == None
    ensures t.title == input.title && t.description == input.description
            && t.materia == input.materia && t.fechaEntrega == input.fechaEntrega
            && t.groupId == input.groupId
    ensures t.completada == (input.completada == Some(true))
    ensures t.points == (if input.points.Some? then input.points.value else 50)
  {
    Task(freshId, input.title, input.description, input.materia, input.fechaEntrega,
         input.completada.GetOr(false), input.points.GetOr(50), input.groupId, None)
  }

  function HasId(id: string): Task -> bool {
    (t: Task) => t.id == id
  }

  function NotId(id: string): Task -> bool {
    (t: Task) => t.id != id
  }

  /** `tasks.filter(task => task.id !== id)` */
  function Without(tasks: seq<Task>, id: string): (r: seq<Task>)
    ensures |r| <= |tasks|
    ensures forall t :: t in r <==> t in tasks && t.id != id
  {
    Filter(tasks, NotId(id))
  }

  /** Deleting keeps the remaining tasks in their order: it works piecewise
      on any split of the list. */
  lemma WithoutConcat(a: seq<Task>, b: seq<Task>, id: string)
    ensures Without(a + b, id) == Without(a, id) + Without(b, id)
  {
    FilterConcat(a, b, NotId(id));
  }

  /** Deleting an id that no task has changes nothing. */
  lemma WithoutUnknown(tasks: seq<Task>, id: string)
    requires forall t :: t in tasks ==> t.id != id
    ensures Without(tasks, id) == tasks
  {
    FilterKeepsAll(tasks, NotId(id));
  }

  function Flip(t: Task): Task {
    t.(completada := !t.completada)
  }

  /** `tasks.map(task => task.id === id ? {...task, completada: !task.completada} : task)` */
  function Toggled(tasks: seq<Task>, id: string): (r: seq<Task>)
    ensures |r| == |tasks|
    ensures forall i :: 0 <= i < |tasks| ==>
              r[i].completada == (tasks[i].completada != (tasks[i].id == id))
              && r[i] == tasks[i].(completada := r[i].completada)
  {
    MapWhere(tasks, HasId(id), Flip)
  }

  /** Toggling the same id twice gives back the original list. */
  lemma ToggledTwice(tasks: seq<Task>, id: string)
    ensures Toggled(Toggled(tasks, id), id) == tasks
  {
    MapWhereTwice(tasks, HasId(id), Flip);
  }

  /** `{...task, ...updates}`: every field the patch sets wins. */
  function Merge(t: Task, u: TaskPatch): (r: Task)
    ensures r.id == t.id
    ensures u.title.Some? ==> r.title == u.title.value
    ensures u.title.None? ==> r.title == t.title
    ensures u.description.Some? ==> r.description == u.description
    ensures u.description.None? ==> r.description == t.description
    ensures u.materia.Some? ==> r.materia == u.materia
    ensures u.materia.None? ==> r.materia == t.materia
    ensures u.fechaEntrega.Some? ==> r.fechaEntrega == u.fechaEntrega
    ensures u.fechaEntrega.None? ==> r.fechaEntrega == t.fechaEntrega
    ensures u.completada.Some? ==> r.completada == u.completada.value
    ensures u.completada.None? ==> r.completada == t.completada
    ensures u.points.Some? ==> r.points == u.points.value
    ensures u.points.None? ==> r.points == t.points
    ensures u.groupId.Some? ==> r.groupId == u.groupId
    ensures u.groupId.None? ==> r.groupId == t.groupId
    ensures u.prioridad.Some? ==> r.prioridad == u.prioridad
    ensures u.prioridad.None? ==> r.prioridad == t.prioridad
    ensures u == TaskPatch(None, None, None, None, None, None, None, None) ==> r == t
  {
    Task(t.id,
         u.title.GetOr(t.title),
         u.description.OrElse(t.description),
         u.materia.OrElse(t.materia),
         u.fechaEntrega.OrElse(t.fechaEntrega),
         u.completada.GetOr(t.completada),
         u.points.GetOr(t.points),
         u.groupId.OrElse(t.groupId),
         u.prioridad.OrElse(t.prioridad))
  }

  /** Merging the same patch twice is merging it once. */
  lemma MergeIdempotent(t: Task, u: TaskPatch)
    ensures Merge(Merge(t, u), u) == Merge(t, u)
  {
  }

  /** `tasks.map(task => task.id === id ? {...task, ...updates} : task)` */
  function Updated(tasks: seq<Task>, id: string, u: TaskPatch): (r: seq<Task>)
    ensures |r| == |tasks|
    ensures forall i :: 0 <= i < |tasks| && tasks[i].id != id ==> r[i] == tasks[i]
    ensures forall i :: 0 <= i < |tasks| && tasks[i].id == id ==> r[i] == Merge(tasks[i], u)
  {
    MapWhere(tasks, HasId(id), t => Merge(t, u))
  }

  /** Repeating an update changes nothing more. */
  lemma UpdatedTwice(tasks: seq<Task>, id: string, u: TaskPatch)
    ensures Updated(Updated(tasks, id, u), id, u) == Updated(tasks, id, u)
  {
    var once := Updated(tasks, id, u);
    var twice := Updated(once, id, u);
    forall i | 0 <= i < |tasks|
      ensures twice[i] == once[i]
    {
      if tasks[i].id == id {
        MergeIdempotent(tasks[i], u);
      }
    }
  }

  /** No two tasks share an id. */
  ghost predicate UniqueIds(tasks: seq<Task>) {
    forall i, j :: 0 <= i < j < |tasks| ==> tasks[i].id != tasks[j].id
  }

  /** Every operation keeps ids unique when the new id is fresh. */
  lemma OperationsKeepIdsUnique(tasks: seq<Task>, input: TaskInput, freshId: string, id: string, u: TaskPatch)
    requires UniqueIds(tasks)
    requires forall t :: t in tasks ==> t.id != freshId
    ensures UniqueIds(tasks + [NewTask(input, freshId)])
    ensures UniqueIds(Toggled(tasks, id))
    ensures UniqueIds(Updated(tasks, id, u))
    ensures UniqueIds(Without(tasks, id))
  {
    var added := tasks + [NewTask(input, freshId)];
    forall i, j | 0 <= i < j < |added| ensures added[i].id != added[j].id {
      if j == |tasks| {
        assert added[i] in tasks;
      }
    }
    WithoutKeepsUnique(tasks, id);
  }

  lemma {:induction false} WithoutKeepsUnique(tasks: seq<Task>, id: string)
    requires UniqueIds(tasks)
    ensures UniqueIds(Without(tasks, id))
  {
    if tasks != [] {
      var rest := tasks[1..];
      WithoutKeepsUnique(rest, id);
      assert tasks == [tasks[0]] + rest;
      FilterCons(tasks[0], rest, NotId(id));
      var r := Without(tasks, id);
      if tasks[0].id != id {
        assert r == [tasks[0]] + Without(rest, id);
        forall j | 1 <= j < |r| ensures r[0].id != r[j].id {
          assert r[j] in rest;
        }
      }
    }
  }

  /** The task store: the current list, mirrored to `TASKS_KEY`. */
  class TaskStore {
    var tasks: seq<Task>
    const storage: LocalStorage
    const json: Json<Task>

    /** The save effect has run: storage holds the text of the list. */
    ghost predicate Saved()
      reads this, storage
    {
      TASKS_KEY in storage.entries && storage.entries[TASKS_KEY] == json.stringify(tasks)
    }

    /** Mounting the provider: the loader picks the initial list, then the
        save effect writes it back (which also replaces a removed key). */
    constructor (storage: LocalStorage, json: Json<Task>)
      modifies storage
      ensures this.storage == storage && this.json == json
      ensures tasks == LoadOrSeed(old(storage.entries), TASKS_KEY, json, SeedTasks).items
      ensures storage.entries == old(storage.entries)[TASKS_KEY := json.stringify(tasks)]
      ensures Saved()
    {
      this.storage := storage;
      this.json := json;
      var loaded := LoadOrSeed(storage.entries, TASKS_KEY, json, SeedTasks);
      tasks := loaded.items;
      new;
      if loaded.entries != storage.entries {
        storage.RemoveItem(TASKS_KEY);
      }
      Save();
    }

    /** The save effect. */
    method Save()
      modifies storage
      ensures storage.entries == old(storage.entries)[TASKS_KEY := json.stringify(tasks)]
      ensures Saved()
    {
      storage.SetItem(TASKS_KEY, json.stringify(tasks));
    }

    /** `addTask`: one new task at the end; the others stay as they were. */
    method AddTask(input: TaskInput, freshId: string)
      modifies this, storage
      ensures tasks == old(tasks) + [NewTask(input, freshId)]
      ensures storage.entries == old(storage.entries)[TASKS_KEY := json.stringify(tasks)]
      ensures Saved()
    {
      tasks := tasks + [NewTask(input, freshId)];
      Save();
    }

    /** `deleteTask` */
    method DeleteTask(id: string)
      modifies this, storage
      ensures tasks == Without(old(tasks), id)
      ensures storage.entries == old(storage.entries)[TASKS_KEY := json.stringify(tasks)]
      ensures Saved()
    {
      tasks := Without(tasks, id);
      Save();
    }

    /** `toggleComplete` */
    method ToggleComplete(id: string)
      modifies this, storage
      ensures tasks == Toggled(old(tasks), id)
      ensures storage.entries == old(storage.entries)[TASKS_KEY := json.stringify(tasks)]
      ensures Saved()
    {
      tasks := Toggled(tasks, id);
      Save();
    }

    /** `updateTask` */
    method UpdateTask(id: string, u: TaskPatch)
      modifies this, storage
      ensures tasks == Updated(old(tasks), id, u)
      ensures storage.entries == old(storage.entries)[TASKS_KEY := json.stringify(tasks)]
      ensures Saved()
    {
      tasks := Updated(tasks, id, u);
      Save();
    }
  }

  /** What a later visit loads from what the store saved: the same list,
      except that an empty list comes back as the two sample tasks. */
  lemma ReloadAfterSave(entries: map<string, string>, json: Json<Task>, tasks: seq<Task>)
    requires Lawful(json)
    ensures LoadOrSeed(entries[TASKS_KEY := json.stringify(tasks)], TASKS_KEY, json, SeedTasks).items
            == (if tasks == [] then SeedTasks else tasks)
  {
    SaveThenLoad(entries, TASKS_KEY, json, SeedTasks, tasks);
  }
}
