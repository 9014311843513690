/** The groups screen (`GamificationView`): the selected group with its
    task list kept in step with the task store, the choice of a group when
    none (or a vanished one) is selected, and the three dialogs that create
    a group, join one and assign a task to the selected group. */
module Gamification {
  import opened Common
  import opened Tasks
  import opened Groups

  /** The id of the signed-in user the screen pretends to be. */
  const MOCK_USER_ID := "u1_mock"

  // ---------------------------------------------------------------------
  // The selected group's tasks
  // ---------------------------------------------------------------------

  function InGroup(id: string): Task -> bool {
    (t: Task) => t.groupId == Some(id)
  }

  /** `tasks.filter(task => task.groupId === selectedGroup.id)` */
  function GroupTasks(tasks: seq<Task>, id: string): (r: seq<Task>)
    ensures |r| <= |tasks|
    ensures forall t :: t in r <==> t in tasks && t.groupId == Some(id)
  {
    Filter(tasks, InGroup(id))
  }

  /** A task added to the store shows last in its own group's list and
      leaves every other group's list as it was. */
  lemma GroupTasksSnoc(tasks: seq<Task>, t: Task, id: string)
    ensures t.groupId == Some(id) ==> GroupTasks(tasks + [t], id) == GroupTasks(tasks, id) + [t]
    ensures t.groupId != Some(id) ==> GroupTasks(tasks + [t], id) == GroupTasks(tasks, id)
  {
    FilterConcat(tasks, [t], InGroup(id));
    FilterCons(t, [], InGroup(id));
  }

  /** Removing a task from the store removes it from its group's list and
      keeps the order of the rest. */
  lemma GroupTasksWithout(tasks: seq<Task>, taskId: string, id: string)
    ensures GroupTasks(Without(tasks, taskId), id) == Without(GroupTasks(tasks, id), taskId)
  {
    FilterCommute(tasks, NotId(taskId), InGroup(id));
  }

  // ---------------------------------------------------------------------
  // Choosing a group
  // ---------------------------------------------------------------------

  /** `myGroups.find(g => g.id === id)` finds something. */
  predicate Listed(groups: seq<Group>, id: string) {
    exists g :: g in groups && g.id == id
  }

  /** The selection effect: with nothing selected the first group is
      taken; a selected group whose id has left the list is replaced by the
      first group, or by nothing when the list is empty; otherwise the
      selection stays. */
  function Reselected(selected: Option<Group>, groups: seq<Group>): (r: Option<Group>)
    ensures selected.None? && groups != [] ==> r == Some(groups[0])
    ensures selected.None? && groups == [] ==> r == None
    ensures selected.Some? && Listed(groups, selected.value.id) ==> r == selected
    ensures selected.Some? && !Listed(groups, selected.value.id) ==>
              r == (if groups == [] then None else Some(groups[0]))
  {
    if selected.None? && |groups| > 0 then Some(groups[0])
    else if selected.Some? && !Listed(groups, selected.value.id) then
      (if |groups| > 0 then Some(groups[0]) else None)
    else selected
  }

  /** After the effect a group is selected exactly when there are groups,
      and the selected one is, by id, one of them. Running it again changes
      nothing. */
  lemma ReselectedFacts(selected: Option<Group>, groups: seq<Group>)
    ensures var r := Reselected(selected, groups);
            (r.Some? <==> groups != [])
            && (r.Some? ==> Listed(groups, r.value.id))
            && Reselected(r, groups) == r
  {
    var r := Reselected(selected, groups);
    if r.Some? && selected.Some? && r == selected {
      assert Listed(groups, r.value.id);
    } else if r.Some? {
      assert groups[0] in groups;
    }
  }

  // ---------------------------------------------------------------------
  // The three dialogs
  // ---------------------------------------------------------------------

  datatype GroupForm = GroupForm(name: string, description: string, key: string)

  datatype JoinForm = JoinForm(nameOrId: string, key: string)

  datatype AssignForm = AssignForm(title: string, description: string, date: string)

  const EmptyGroupForm := GroupForm("", "", "")
  const EmptyJoinForm := JoinForm("", "")
  const EmptyAssignForm := AssignForm("", "", "")

  /** `handleCreateGroup` refuses a blank name and a blank key. */
  predicate CanCreate(f: GroupForm) {
    !IsBlank(f.name) && !IsBlank(f.key)
  }

  /** The group handed to `addGroup`: name, description and key trimmed,
      a blank description left out, the mock user as creator. */
  function GroupFormInput(f: GroupForm): GroupInput {
    GroupInput(Trim(f.name), if Trim(f.description) == "" then None else Some(Trim(f.description)),
               MOCK_USER_ID, Trim(f.key))
  }

  /** A group created from the dialog has a non-blank trimmed name and
      key, belongs to the mock user and starts without tasks; its trimmed
      key is not blank, so `addGroup` accepts it. */
  lemma CreatedGroup(f: GroupForm, freshId: string)
    requires CanCreate(f)
    ensures var g := NewGroup(GroupFormInput(f), freshId);
            g.id == freshId && g.name != "" && Trim(g.name) == g.name
            && g.key != "" && Trim(g.key) == g.key && !IsBlank(g.key)
            && g.creatorId == MOCK_USER_ID && g.tasks == []
            && (g.description.Some? ==> g.description.value != "")
  {
    TrimIdempotent(f.name);
    TrimIdempotent(f.key);
  }

  /** `handleJoinGroup` refuses a blank name-or-id and a blank key. */
  predicate CanJoin(f: JoinForm) {
    !IsBlank(f.nameOrId) && !IsBlank(f.key)
  }

  /** `handleAssignTask` needs a non-blank title and a selected group. */
  predicate CanAssign(f: AssignForm, selected: Option<Group>) {
    !IsBlank(f.title) && selected.Some?
  }

  /** The task handed to `addTask`: title and description trimmed, an empty
      description or date left out, the group's id attached. */
  function AssignInput(f: AssignForm, groupId: string): TaskInput {
    TaskInput(Trim(f.title), if Trim(f.description) == "" then None else Some(Trim(f.description)),
              None, if f.date == "" then None else Some(f.date), Some(groupId),
              None, None, None, None)
  }

  /** An assigned task belongs to the selected group, is pending with 50
      points, has a non-empty trimmed title, and shows last in that group's
      list once the selection is resynchronised. */
  lemma AssignedTask(f: AssignForm, selected: Option<Group>, tasks: seq<Task>, freshId: string)
    requires CanAssign(f, selected)
    ensures var t := NewTask(AssignInput(f, selected.value.id), freshId);
            t.groupId == Some(selected.value.id) && t.materia == None
            && !t.completada && t.points == 50
            && t.title != "" && Trim(t.title) == t.title
            && GroupTasks(tasks + [t], selected.value.id) == GroupTasks(tasks, selected.value.id) + [t]
  {
    TrimIdempotent(f.title);
    GroupTasksSnoc(tasks, NewTask(AssignInput(f, selected.value.id), freshId), selected.value.id);
  }

  // ---------------------------------------------------------------------
  // The view
  // ---------------------------------------------------------------------

  class GamificationView {
    var selectedGroup: Option<Group>
    var isCreateModalOpen: bool
    var isAssignTaskModalOpen: bool
    var isJoinModalOpen: bool
    var groupForm: GroupForm
    var joinForm: JoinForm
    var assignForm: AssignForm
    const tasks: TaskStore
    const groups: GroupStore

    /** First render: nothing selected, every dialog closed and empty. */
    constructor (tasks: TaskStore, groups: GroupStore)
      ensures this.tasks == tasks && this.groups == groups
      ensures selectedGroup == None
      ensures !isCreateModalOpen && !isAssignTaskModalOpen && !isJoinModalOpen
      ensures groupForm == EmptyGroupForm && joinForm == EmptyJoinForm && assignForm == EmptyAssignForm
    {
      this.tasks := tasks;
      this.groups := groups;
      selectedGroup := None;
      isCreateModalOpen, isAssignTaskModalOpen, isJoinModalOpen := false, false, false;
      groupForm, joinForm, assignForm := EmptyGroupForm, EmptyJoinForm, EmptyAssignForm;
    }

    /** The resync effect: the selected group's tasks become the store's
        tasks of that group, in the store's order. The group is replaced
        only when the list differs, which leaves the same state. */
    method Resync()
      modifies this
      ensures old(selectedGroup).None? ==> selectedGroup == None
      ensures old(selectedGroup).Some? ==>
                selectedGroup == Some(old(selectedGroup).value.(tasks := GroupTasks(tasks.tasks, old(selectedGroup).value.id)))
      ensures groupForm == old(groupForm) && joinForm == old(joinForm) && assignForm == old(assignForm)
      ensures isCreateModalOpen == old(isCreateModalOpen) && isAssignTaskModalOpen == old(isAssignTaskModalOpen)
              && isJoinModalOpen == old(isJoinModalOpen)
    {
      if selectedGroup.Some? {
        var current := GroupTasks(tasks.tasks, selectedGroup.value.id);
        if current != selectedGroup.value.tasks {
          selectedGroup := Some(selectedGroup.value.(tasks := current));
        }
      }
    }

    /** The selection effect, run when the group list changes. */
    method SelectionEffect()
      modifies this
      ensures selectedGroup == Reselected(old(selectedGroup), groups.myGroups)
      ensures groupForm == old(groupForm) && joinForm == old(joinForm) && assignForm == old(assignForm)
      ensures isCreateModalOpen == old(isCreateModalOpen) && isAssignTaskModalOpen == old(isAssignTaskModalOpen)
              && isJoinModalOpen == old(isJoinModalOpen)
    {
      if selectedGroup.None? && |groups.myGroups| > 0 {
        selectedGroup := Some(groups.myGroups[0]);
      } else if selectedGroup.Some? && !Listed(groups.myGroups, selectedGroup.value.id) {
        selectedGroup := if |groups.myGroups| > 0 then Some(groups.myGroups[0]) else None;
      }
    }

    /** `handleCreateGroup`: a blank name or key only reports an error;
        otherwise the group is added first in the store and the dialog is
        cleared and closed. */
    method HandleCreateGroup(freshId: string)
      modifies this, groups, groups.storage
      ensures !CanCreate(old(groupForm)) ==>
                groups.myGroups == old(groups.myGroups) && groups.storage.entries == old(groups.storage.entries)
                && groupForm == old(groupForm) && isCreateModalOpen == old(isCreateModalOpen)
      ensures CanCreate(old(groupForm)) ==>
                groups.myGroups == [NewGroup(GroupFormInput(old(groupForm)), freshId)] + old(groups.myGroups)
                && groups.storage.entries == old(groups.storage.entries)[GROUPS_KEY := groups.json.stringify(groups.myGroups)]
                && groups.Saved() && groupForm == EmptyGroupForm && !isCreateModalOpen
      ensures selectedGroup == old(selectedGroup) && joinForm == old(joinForm) && assignForm == old(assignForm)
      ensures isJoinModalOpen == old(isJoinModalOpen) && isAssignTaskModalOpen == old(isAssignTaskModalOpen)
    {
      if !CanCreate(groupForm) {
        return;
      }
      TrimIdempotent(groupForm.key);
      var added := groups.AddGroup(GroupFormInput(groupForm), freshId);
      groupForm := EmptyGroupForm;
      isCreateModalOpen := false;
    }

    /** `handleJoinGroup`: the dialog is cleared and closed only when
        `joinGroup` accepts the trimmed name-or-id and key; the group list
        never changes. */
    method HandleJoinGroup()
      modifies this
      ensures var f := old(joinForm);
              if CanJoin(f) && JoinGroup(groups.myGroups, Trim(f.nameOrId), Trim(f.key))
              then joinForm == EmptyJoinForm && !isJoinModalOpen
              else joinForm == f && isJoinModalOpen == old(isJoinModalOpen)
      ensures groups.myGroups == old(groups.myGroups)
      ensures selectedGroup == old(selectedGroup) && groupForm == old(groupForm) && assignForm == old(assignForm)
      ensures isCreateModalOpen == old(isCreateModalOpen) && isAssignTaskModalOpen == old(isAssignTaskModalOpen)
    {
      if !CanJoin(joinForm) {
        return;
      }
      var success := JoinGroup(groups.myGroups, Trim(joinForm.nameOrId), Trim(joinForm.key));
      if success {
        joinForm := EmptyJoinForm;
        isJoinModalOpen := false;
      }
    }

    /** `handleAssignTask`: without a title or a selected group only an
        error is reported; otherwise the task is added to the store with the
        group's id and the dialog is cleared and closed. */
    method HandleAssignTask(freshId: string)
      modifies this, tasks, tasks.storage
      ensures !CanAssign(old(assignForm), old(selectedGroup)) ==>
                tasks.tasks == old(tasks.tasks) && tasks.storage.entries == old(tasks.storage.entries)
                && assignForm == old(assignForm) && isAssignTaskModalOpen == old(isAssignTaskModalOpen)
      ensures CanAssign(old(assignForm), old(selectedGroup)) ==>
                tasks.tasks == old(tasks.tasks) + [NewTask(AssignInput(old(assignForm), old(selectedGroup).value.id), freshId)]
                && tasks.storage.entries == old(tasks.storage.entries)[TASKS_KEY := tasks.json.stringify(tasks.tasks)]
                && tasks.Saved() && assignForm == EmptyAssignForm && !isAssignTaskModalOpen
      ensures selectedGroup == old(selectedGroup) && groupForm == old(groupForm) && joinForm == old(joinForm)
      ensures isCreateModalOpen == old(isCreateModalOpen) && isJoinModalOpen == old(isJoinModalOpen)
    {
      if !CanAssign(assignForm, selectedGroup) {
        return;
      }
      tasks.AddTask(AssignInput(assignForm, selectedGroup.value.id), freshId);
      assignForm := EmptyAssignForm;
      isAssignTaskModalOpen := false;
    }
  }
}
