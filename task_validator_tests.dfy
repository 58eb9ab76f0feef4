/**
 * The cases of tests/taskValidator.test.js, proved about the model of the validators.
 */
module TaskValidatorTests {
  import opened Wrappers
  import opened TaskValidator

  function Obj3(id: JValue, name: JValue, priority: JValue): JValue {
    JObj(map["id" := id, "name" := name, "priority" := priority])
  }

  /** -1, 0 and 2.34 are refused as ids; the input comes back as the value. */
  lemma ValidateIdRejects()
    ensures forall x :: x in [-1.0, 0.0, 2.34] ==>
      ValidateId(JNum(x)).error.Some? && ValidateId(JNum(x)).value == JNum(x)
  {
    assert (2.34).Floor == 2;
  }

  /** 1, 2, 100 and 141431 are accepted as ids; the input comes back as the value. */
  lemma ValidateIdAccepts()
    ensures forall x :: x in [1.0, 2.0, 100.0, 141431.0] ==>
      ValidateId(JNum(x)) == Validation(JNum(x), None)
  {
  }

  /** The objects of the "invalid properties" case are refused. The test passes `{}` to the
    * validator each time; this states the rejection of the objects it lists, and of an
    * otherwise valid task carrying one extra key. */
  lemma UnknownKeysRejected()
    ensures ValidateTask(JObj(map[])).error.Some?
    ensures ValidateTask(JObj(map["taskName" := JStr("taskName")])).error.Some?
    ensures ValidateTask(JObj(map["id" := JNum(1.0), "name" := JStr("taskName"), "taskPriority" := JStr("low")])).error.Some?
    ensures ValidateTask(JObj(map["state" := JStr("on"), "done" := JBool(false)])).error.Some?
    ensures ValidateTask(JObj(map["name" := JStr("taskName"), "priority" := JStr("low"), "done" := JBool(false)])).error.Some?
  {
    var extra := map["name" := JStr("taskName"), "priority" := JStr("low"), "done" := JBool(false)];
    assert "done" in extra.Keys;
  }

  /** Ids 0 and -1 are refused inside a task; the input comes back as the value. */
  lemma WrongIdsRejected()
    ensures forall x :: x in [0.0, -1.0] ==>
      var task := Obj3(JNum(x), JStr("taskName"), JStr("low"));
      ValidateTask(task).error.Some? && ValidateTask(task).value == task
  {
  }

  /** A missing, numeric, too short, too long or punctuated name is refused. */
  lemma WrongNamesRejected()
    ensures ValidateTask(JObj(map["id" := JNum(1.0), "priority" := JStr("low")])).error.Some?
    ensures forall name :: name in [JNum(3.0), JStr("to"),
                                    JStr("At the maximum twenty characters per name of task"),
                                    JStr("Non alphanum *&!^/\\")] ==>
      ValidateTask(Obj3(JNum(1.0), name, JStr("low"))).error.Some?
  {
    assert !IsAlphanumChar(' ');
    assert JStr("Non alphanum *&!^/\\").s[3] == ' ';
  }

  /** A missing, numeric or unlisted priority is refused. */
  lemma WrongPrioritiesRejected()
    ensures ValidateTask(JObj(map["id" := JNum(1.0), "name" := JStr("taskName")])).error.Some?
    ensures ValidateTask(Obj3(JNum(1.0), JStr("taskName"), JNum(3.0))).error.Some?
    ensures ValidateTask(Obj3(JNum(1.0), JStr("taskName"), JStr("non valid"))).error.Some?
  {
  }

  /** An id on its own, or with only one of name and priority, is refused. */
  lemma IdRequiresNameAndPriority()
    ensures ValidateTask(JObj(map["id" := JNum(1.0)])).error.Some?
    ensures ValidateTask(JObj(map["id" := JNum(1.0), "name" := JStr("taskName")])).error.Some?
    ensures ValidateTask(JObj(map["id" := JNum(1.0), "priority" := JStr("low")])).error.Some?
  {
  }

  /** The names the valid-schema case uses are accepted names. */
  lemma ListedNamesValid(name: string)
    requires name in ["123", "abcdefghijklmnopqrst", "Alphanuns123"]
    ensures IsValidName(JStr(name))
  {
    forall i | 0 <= i < |name|
      ensures IsAlphanumChar(name[i])
    {
      if name == "abcdefghijklmnopqrst" {
        assert 'a' <= name[i] <= 'z';
      }
    }
  }

  /** Every combination of the listed ids, names and priorities is accepted unchanged. */
  lemma ValidCombinationAccepted(id: real, name: string, priority: string)
    requires id in [1.0, 2.0, 100.0]
    requires name in ["123", "abcdefghijklmnopqrst", "Alphanuns123"]
    requires priority in ["low", "normal", "high"]
    ensures var task := Obj3(JNum(id), JStr(name), JStr(priority));
      ValidateTask(task) == Validation(task, None)
  {
    ListedNamesValid(name);
    var task := Obj3(JNum(id), JStr(name), JStr(priority));
    assert task.fields.Keys == {"id", "name", "priority"};
    assert IsValidTask(task);
  }
}
