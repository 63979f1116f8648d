// The fixture loader: the two helpers that build the seeding script. The
// script is what the suite hands to the browser; running it and reloading
// the page are not part of this model.

module Loader {
  import opened Fixture
  import opened Script

  /** given: appends one element and a comma per task, drops the last
      character when there was at least one task, then closes the array and
      the call. The result is exactly Payload of the tasks. */
  method Given(tasks: array<Task>) returns (script: string)
    ensures script == Payload(tasks[..])
  {
    script := "localStorage.setItem('todos-troopjs', '[";
    for i := 0 to tasks.Length
      invariant script == Prefix + Accumulate(Elements(tasks[..i]))
    {
      var task := tasks[i];
      AppendElement(tasks[..], i, script);
      script := script + KeyCompleted + (if Active == task.taskType then "false" else "true")
                + KeyTitle + task.text + CloseElement + ",";
    }
    assert tasks[..tasks.Length] == tasks[..];
    CloseScript(tasks[..], script);
    if tasks.Length > 0 {
      script := script[..|script| - 1];
    }
    script := script + "]');";
  }

  /** One loop iteration appends the next task's element and a comma to
      what has been accumulated. */
  lemma AppendElement(tasks: seq<Task>, i: nat, before: string)
    requires i < |tasks|
    requires before == Prefix + Accumulate(Elements(tasks[..i]))
    ensures before + KeyCompleted + (if Active == tasks[i].taskType then "false" else "true")
            + KeyTitle + tasks[i].text + CloseElement + "," == Prefix + Accumulate(Elements(tasks[..i + 1]))
  {
    var e := Element(tasks[i]);
    var a := Accumulate(Elements(tasks[..i]));
    assert Accumulate(Elements(tasks[..i + 1])) == a + e + "," by {
      assert Elements(tasks[..i + 1]) == Elements(tasks[..i]) + [e];
      AccumulateSnoc(Elements(tasks[..i]), e);
    }
    assert before + e + "," == Prefix + (a + e + ",") by {
      Regroup(Prefix, a, e);
    }
    assert (if Active == tasks[i].taskType then "false" else "true") == Flag(tasks[i].taskType);
    ElementRegroup(before, KeyCompleted, Flag(tasks[i].taskType), KeyTitle, tasks[i].text, CloseElement);
  }

  /** Concatenation after the prefix, regrouped. */
  lemma Regroup(p: string, a: string, e: string)
    ensures p + a + e + "," == p + (a + e + ",")
  {
  }

  /** The five pieces an iteration appends, grouped into one element. */
  lemma ElementRegroup(before: string, k: string, f: string, kt: string, x: string, c: string)
    ensures before + k + f + kt + x + c + "," == before + (k + f + kt + x + c) + ","
  {
  }

  /** After the loop: dropping the last character when there was a task,
      then appending the suffix, gives the whole script. */
  lemma CloseScript(tasks: seq<Task>, acc: string)
    requires acc == Prefix + Accumulate(Elements(tasks))
    ensures |tasks| > 0 ==> |acc| > 0 && acc[..|acc| - 1] + "]');" == Payload(tasks)
    ensures |tasks| == 0 ==> acc + "]');" == Payload(tasks)
  {
    if |tasks| > 0 {
      var a := Accumulate(Elements(tasks));
      AccumulateIsJoinPlusComma(Elements(tasks));
      assert acc[..|acc| - 1] == Prefix + a[..|a| - 1];
    } else {
      assert Elements(tasks) == [];
    }
  }

  /** givenAtAll: fills a fresh array with one task per text, all of the
      given type, and builds the script for it with given. */
  method GivenAtAll(mainType: TaskType, taskTexts: array<string>) returns (script: string)
    ensures script == Payload(AllOfType(mainType, taskTexts[..]))
  {
    var tasks := new Task[taskTexts.Length];
    for i := 0 to taskTexts.Length
      invariant forall j :: 0 <= j < i ==> tasks[j] == Task(taskTexts[j], mainType)
    {
      tasks[i] := Task(taskTexts[i], mainType);
    }
    assert tasks[..] == AllOfType(mainType, taskTexts[..]);
    script := Given(tasks);
  }
}
