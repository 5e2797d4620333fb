/** The improvement-task entries of core/storage/improvements/gae_models.py: deterministic
    ids, duplicate-rejecting creation and the per-user queries, over a datastore modelled
    as a map from id to entry. Timestamps are integers. */
module Improvements {
  import opened Wrappers
  import Strings

  /** TASK_STATUS_CHOICES. */
  datatype Status = Open | Obsolete | Resolved

  /** The stored fields of a TaskEntryModel. */
  datatype TaskEntry = TaskEntry(
    compositeEntityId: string, entityType: string, entityId: string, entityVersion: int,
    taskType: string, targetType: string, targetId: string, issueDescription: Option<string>,
    status: Status, resolverId: Option<string>, resolvedOn: Option<int>)

  /** The `choices=` of the entity_type, task_type and target_type properties: the values
      of TASK_ENTITY_TYPES, TASK_TYPES and TASK_TARGET_TYPES, whose spellings live in the
      constants module. */
  datatype Choices = Choices(entityTypes: set<string>, taskTypes: set<string>, targetTypes: set<string>)

  /** The exception `create` raises for a taken id, and ndb's BadValueError for a value
      outside a property's choices. */
  datatype CreateError = TaskIdExists(taskId: string) | BadValue(property: string, value: string)

  /** The properties of a new entry whose value `choices=` rejects, as (property, value). */
  function Rejected(c: Choices, entityType: string, taskType: string, targetType: string): (r: set<(string, string)>)
    ensures r == {} <==> entityType in c.entityTypes && taskType in c.taskTypes && targetType in c.targetTypes
    ensures forall p :: p in r ==>
      (p == ("entity_type", entityType) && entityType !in c.entityTypes) ||
      (p == ("task_type", taskType) && taskType !in c.taskTypes) ||
      (p == ("target_type", targetType) && targetType !in c.targetTypes)
  {
    (if entityType in c.entityTypes then {} else {("entity_type", entityType)}) +
    (if taskType in c.taskTypes then {} else {("task_type", taskType)}) +
    (if targetType in c.targetTypes then {} else {("target_type", targetType)})
  }

  /** generate_composite_entity_id: `'%s.%s.%d'`. A dot-free entity type is the text
      before the first dot. */
  function CompositeEntityId(entityType: string, entityId: string, entityVersion: int): (r: string)
    ensures DotFree(entityType) ==> Strings.BeforeFirst(r, '.') == entityType
    ensures Strings.EndsWith(r, "." + Strings.IntToString(entityVersion))
  {
    var n := Strings.IntToString(entityVersion);
    var rest := entityId + "." + n;
    var r := Dotted(entityType, rest);
    assert r == (entityType + "." + entityId) + ("." + n);
    if DotFree(entityType) then FirstField(entityType, rest); r else r
  }

  /** With a dot-free entity type and id, the composite id determines the entity and its
      version. */
  lemma CompositeEntityIdInjective(et1: string, ei1: string, v1: int, et2: string, ei2: string, v2: int)
    requires DotFree(et1) && DotFree(ei1) && DotFree(et2) && DotFree(ei2)
    requires CompositeEntityId(et1, ei1, v1) == CompositeEntityId(et2, ei2, v2)
    ensures et1 == et2 && ei1 == ei2 && v1 == v2
  {
    var n1, n2 := Strings.IntToString(v1), Strings.IntToString(v2);
    PeelField(et1, Dotted(ei1, n1), et2, Dotted(ei2, n2));
    PeelField(ei1, n1, ei2, n2);
    Strings.IntToStringInjective(v1, v2);
  }

  /** generate_task_id: `'%s.%s.%d.%s.%s.%s'`. */
  function TaskId(entityType: string, entityId: string, entityVersion: int, taskType: string,
                  targetType: string, targetId: string): (id: string)
    ensures id == CompositeEntityId(entityType, entityId, entityVersion) + "." + taskType + "." + targetType + "." + targetId
  {
    entityType + "." + entityId + "." + Strings.IntToString(entityVersion) + "." + taskType + "." +
    targetType + "." + targetId
  }

  predicate DotFree(s: string) {
    forall i :: 0 <= i < |s| ==> s[i] != '.'
  }

  /** A decimal number never contains a dot. */
  lemma IntToStringDotFree(n: int)
    ensures DotFree(Strings.IntToString(n))
  {
    var s := Strings.IntToString(n);
    if n < 0 {
      assert s[1..] == Strings.NatToString(-n);
      forall i | 0 <= i < |s| ensures s[i] != '.' {
        if i > 0 { assert s[i] == s[1..][i - 1]; }
      }
    }
  }

  /** A field and the rest of an id, joined by a dot. */
  function Dotted(a: string, rest: string): string {
    a + "." + rest
  }

  /** The text before the first dot is the dot-free first field. */
  lemma {:induction false} FirstField(a: string, r: string)
    requires DotFree(a)
    ensures Strings.BeforeFirst(Dotted(a, r), '.') == a
    decreases |a|
  {
    if a != [] {
      assert Dotted(a, r)[1..] == Dotted(a[1..], r);
      FirstField(a[1..], r);
    }
  }

  /** A dot-free first field is determined by the joined text, and so is the rest. */
  lemma PeelField(a1: string, r1: string, a2: string, r2: string)
    requires DotFree(a1) && DotFree(a2) && Dotted(a1, r1) == Dotted(a2, r2)
    ensures a1 == a2 && r1 == r2
  {
    var s := Dotted(a1, r1);
    FirstField(a1, r1);
    FirstField(a2, r2);
    assert a1 == s[..|a1|] && a2 == s[..|a2|];
    assert r1 == s[|a1| + 1..] && r2 == s[|a2| + 1..];
  }

  /** The task id as its six fields, each followed by a dot but the last. */
  lemma TaskIdFields(entityType: string, entityId: string, entityVersion: int, taskType: string,
                     targetType: string, targetId: string)
    ensures TaskId(entityType, entityId, entityVersion, taskType, targetType, targetId) ==
      Dotted(entityType, Dotted(entityId, Dotted(Strings.IntToString(entityVersion),
        Dotted(taskType, Dotted(targetType, targetId)))))
  {
  }

  /** With dot-free fields, the task id determines every field it was made from. */
  lemma TaskIdInjective(
    et1: string, ei1: string, v1: int, tt1: string, gt1: string, gi1: string,
    et2: string, ei2: string, v2: int, tt2: string, gt2: string, gi2: string)
    requires DotFree(et1) && DotFree(ei1) && DotFree(tt1) && DotFree(gt1)
    requires DotFree(et2) && DotFree(ei2) && DotFree(tt2) && DotFree(gt2)
    requires TaskId(et1, ei1, v1, tt1, gt1, gi1) == TaskId(et2, ei2, v2, tt2, gt2, gi2)
    ensures et1 == et2 && ei1 == ei2 && v1 == v2 && tt1 == tt2 && gt1 == gt2 && gi1 == gi2
  {
    IntToStringDotFree(v1);
    IntToStringDotFree(v2);
    var n1, n2 := Strings.IntToString(v1), Strings.IntToString(v2);
    TaskIdFields(et1, ei1, v1, tt1, gt1, gi1);
    TaskIdFields(et2, ei2, v2, tt2, gt2, gi2);
    PeelField(et1, Dotted(ei1, Dotted(n1, Dotted(tt1, Dotted(gt1, gi1)))),
              et2, Dotted(ei2, Dotted(n2, Dotted(tt2, Dotted(gt2, gi2)))));
    PeelField(ei1, Dotted(n1, Dotted(tt1, Dotted(gt1, gi1))), ei2, Dotted(n2, Dotted(tt2, Dotted(gt2, gi2))));
    PeelField(n1, Dotted(tt1, Dotted(gt1, gi1)), n2, Dotted(tt2, Dotted(gt2, gi2)));
    Strings.IntToStringInjective(v1, v2);
    PeelField(tt1, Dotted(gt1, gi1), tt2, Dotted(gt2, gi2));
    PeelField(gt1, gi1, gt2, gi2);
  }

  /** The ids of the entries the user resolved. */
  function ResolvedBy(entries: map<string, TaskEntry>, userId: string): (r: set<string>)
    ensures forall id :: id in r <==> id in entries && entries[id].resolverId == Some(userId)
  {
    set id | id in entries && entries[id].resolverId == Some(userId)
  }

  /** The entries left once the user's are deleted. */
  function WithoutUser(entries: map<string, TaskEntry>, userId: string): (r: map<string, TaskEntry>)
    ensures forall id :: id in r <==> id in entries && entries[id].resolverId != Some(userId)
    ensures forall id :: id in r ==> r[id] == entries[id]
  {
    map id | id in entries && entries[id].resolverId != Some(userId) :: entries[id]
  }

  /** Deleting the user's entries removes every reference to the user, removes nothing
      else, and leaves the other users' exports as they were. */
  lemma DeletionRemovesReferences(entries: map<string, TaskEntry>, userId: string, other: string)
    requires other != userId
    ensures ResolvedBy(WithoutUser(entries, userId), userId) == {}
    ensures ResolvedBy(WithoutUser(entries, userId), other) == ResolvedBy(entries, other)
    ensures |WithoutUser(entries, userId)| == |entries| - |ResolvedBy(entries, userId)|
  {
    var kept := WithoutUser(entries, userId);
    var gone := ResolvedBy(entries, userId);
    assert kept.Keys == entries.Keys - gone;
    assert gone <= entries.Keys;
    assert |kept.Keys| == |entries.Keys - gone|;
  }

  /** The datastore of TaskEntryModel, with the choices its properties accept. */
  class TaskStore {
    const choices: Choices
    var entries: map<string, TaskEntry>

    constructor(choices: Choices)
      ensures this.choices == choices && entries == map[]
    {
      this.choices := choices;
      entries := map[];
    }

    /** create: refuses an id already in storage; then the model's constructor refuses a
        value outside its property's choices (which one is reported first follows the
        keyword dictionary's order, so only "one of them" is promised); both leave the
        datastore unchanged. Otherwise stores the entry with its composite id and returns
        the new id. */
    method Create(entityType: string, entityId: string, entityVersion: int, taskType: string,
                  targetType: string, targetId: string, issueDescription: Option<string>,
                  status: Status, resolverId: Option<string>, resolvedOn: Option<int>)
      returns (r: Result<string, CreateError>)
      modifies this
      ensures var id := TaskId(entityType, entityId, entityVersion, taskType, targetType, targetId);
        id in old(entries) ==> r == Err(TaskIdExists(id)) && entries == old(entries)
      ensures var id := TaskId(entityType, entityId, entityVersion, taskType, targetType, targetId);
        var bad := Rejected(choices, entityType, taskType, targetType);
        id !in old(entries) && bad != {} ==>
          r.Err? && r.error.BadValue? && (r.error.property, r.error.value) in bad && entries == old(entries)
      ensures var id := TaskId(entityType, entityId, entityVersion, taskType, targetType, targetId);
        id !in old(entries) && Rejected(choices, entityType, taskType, targetType) == {} ==> (r == Ok(id) &&
          entries == old(entries)[id := TaskEntry(CompositeEntityId(entityType, entityId, entityVersion),
                                                  entityType, entityId, entityVersion, taskType, targetType,
                                                  targetId, issueDescription, status, resolverId, resolvedOn)])
    {
      var taskId := TaskId(entityType, entityId, entityVersion, taskType, targetType, targetId);
      if taskId in entries {
        return Err(TaskIdExists(taskId));
      }
      if entityType !in choices.entityTypes {
        return Err(BadValue("entity_type", entityType));
      }
      if taskType !in choices.taskTypes {
        return Err(BadValue("task_type", taskType));
      }
      if targetType !in choices.targetTypes {
        return Err(BadValue("target_type", targetType));
      }
      var composite := CompositeEntityId(entityType, entityId, entityVersion);
      entries := entries[taskId := TaskEntry(composite, entityType, entityId, entityVersion, taskType,
                                             targetType, targetId, issueDescription, status, resolverId, resolvedOn)];
      r := Ok(taskId);
    }

    /** create with its default arguments: no description, obsolete, unresolved. */
    method CreateWithDefaults(entityType: string, entityId: string, entityVersion: int, taskType: string,
                              targetType: string, targetId: string) returns (r: Result<string, CreateError>)
      modifies this
      ensures r.Ok? <==> TaskId(entityType, entityId, entityVersion, taskType, targetType, targetId) !in old(entries) &&
                         Rejected(choices, entityType, taskType, targetType) == {}
      ensures r.Err? ==> entries == old(entries)
      ensures r.Err? && r.error.BadValue? ==> (r.error.property, r.error.value) in Rejected(choices, entityType, taskType, targetType)
      ensures r.Ok? ==> r.value in entries && |entries| == |old(entries)| + 1
      ensures r.Ok? ==> entries[r.value].status == Obsolete && entries[r.value].resolverId == None
      ensures r.Ok? ==> entries[r.value].resolvedOn == None && entries[r.value].issueDescription == None
    {
      r := Create(entityType, entityId, entityVersion, taskType, targetType, targetId, None, Obsolete, None, None);
    }

    /** has_reference_to_user_id: some entry was resolved by the user. */
    function HasReferenceToUserId(userId: string): (r: bool)
      reads this
      ensures r <==> exists id :: id in entries && entries[id].resolverId == Some(userId)
    {
      ResolvedBy(entries, userId) != {}
    }

    /** apply_deletion_policy: deletes exactly the entries the user resolved. */
    method ApplyDeletionPolicy(userId: string)
      modifies this
      ensures entries == WithoutUser(old(entries), userId)
      ensures !HasReferenceToUserId(userId)
    {
      entries := WithoutUser(entries, userId);
    }

    /** export_data: the ids of the tasks the user resolved. */
    function ExportData(userId: string): (taskIdsResolvedByUser: set<string>)
      reads this
      ensures forall id :: id in taskIdsResolvedByUser <==> id in entries && entries[id].resolverId == Some(userId)
      ensures taskIdsResolvedByUser == {} <==> !HasReferenceToUserId(userId)
    {
      ResolvedBy(entries, userId)
    }
  }
}
