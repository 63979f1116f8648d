// The JavaScript statement that seeds the application's local storage with
// a list of fixture tasks, as a specification function, and its properties.

module Script {
  import opened Fixture

  /** Text before the JSON array: a call storing under key todos-troopjs. */
  const Prefix: string := "localStorage.setItem('todos-troopjs', '["
  /** Text after the JSON array: closes the array, the quoted argument and the call. */
  const Suffix: string := "]');"
  /** Opening of one array element, up to the completion flag. */
  const KeyCompleted: string := "{\"completed\":"
  /** Between the completion flag and the title text (note the space). */
  const KeyTitle: string := ", \"title\":\""
  /** Closing of one array element after the title text. */
  const CloseElement: string := "\"}"

  /** The serialised completion flag: "false" for ACTIVE, "true" otherwise. */
  function Flag(taskType: TaskType): string
  {
    if taskType == Active then "false" else "true"
  }

  /** One JSON object of the array; the title text is pasted in verbatim,
      with no escaping. */
  function Element(t: Task): string
  {
    KeyCompleted + Flag(t.taskType) + KeyTitle + t.text + CloseElement
  }

  /** The elements of the array, one per task, in task order. */
  function Elements(tasks: seq<Task>): seq<string>
  {
    seq(|tasks|, i requires 0 <= i < |tasks| => Element(tasks[i]))
  }

  /** The parts joined by single commas: no separator for zero or one part,
      and none after the last. */
  function JoinComma(parts: seq<string>): string
  {
    if |parts| == 0 then ""
    else if |parts| == 1 then parts[0]
    else JoinComma(parts[..|parts| - 1]) + "," + parts[|parts| - 1]
  }

  /** The whole script for a list of fixture tasks. */
  function Payload(tasks: seq<Task>): string
  {
    Prefix + JoinComma(Elements(tasks)) + Suffix
  }

  /** What the building loop has accumulated after the first parts: every
      part followed by a comma. */
  function Accumulate(parts: seq<string>): string
  {
    if parts == [] then ""
    else Accumulate(parts[..|parts| - 1]) + parts[|parts| - 1] + ","
  }

  /** How many array elements carry the flag true. */
  function TrueFlagCount(parts: seq<string>): (n: nat)
    ensures n <= |parts|
  {
    if parts == [] then 0
    else TrueFlagCount(parts[..|parts| - 1]) + (if KeyCompleted + "true" <= parts[|parts| - 1] then 1 else 0)
  }

  /** Every script starts with the fixed prefix and ends with the fixed suffix. */
  lemma PayloadFrame(tasks: seq<Task>)
    ensures |Payload(tasks)| >= |Prefix| + |Suffix|
    ensures Payload(tasks)[..|Prefix|] == "localStorage.setItem('todos-troopjs', '["
    ensures Payload(tasks)[|Payload(tasks)| - |Suffix|..] == "]');"
  {
    var p := Payload(tasks);
    assert p == Prefix + (JoinComma(Elements(tasks)) + Suffix);
  }

  /** No task: an empty array and no separator at all. */
  lemma EmptyPayload()
    ensures Payload([]) == "localStorage.setItem('todos-troopjs', '[]');"
  {
    assert Elements([]) == [];
  }

  /** Accumulating one more part appends that part and one comma. */
  lemma AccumulateSnoc(parts: seq<string>, p: string)
    ensures Accumulate(parts + [p]) == Accumulate(parts) + p + ","
  {
    assert (parts + [p])[..|parts|] == parts;
  }

  /** The accumulated text of a non-empty list is the comma-joined list plus
      exactly one trailing comma: dropping the last character removes that
      comma and nothing else. */
  lemma {:induction false} AccumulateIsJoinPlusComma(parts: seq<string>)
    requires parts != []
    ensures Accumulate(parts) == JoinComma(parts) + ","
    ensures Accumulate(parts)[|Accumulate(parts)| - 1] == ','
    ensures Accumulate(parts)[..|Accumulate(parts)| - 1] == JoinComma(parts)
    decreases |parts|
  {
    var init := parts[..|parts| - 1];
    var last := parts[|parts| - 1];
    if init != [] {
      AccumulateIsJoinPlusComma(init);
      assert Accumulate(parts) == JoinComma(init) + "," + last + ",";
    } else {
      assert Accumulate(parts) == "" + last + ",";
    }
    var a := Accumulate(parts);
    assert a == JoinComma(parts) + ",";
    assert a[..|a| - 1] == JoinComma(parts);
  }

  /** Joining splits at the first part as well as at the last. */
  lemma {:induction false} JoinCommaCons(p: string, parts: seq<string>)
    requires parts != []
    ensures JoinComma([p] + parts) == p + "," + JoinComma(parts)
    decreases |parts|
  {
    var all := [p] + parts;
    var init := parts[..|parts| - 1];
    var last := parts[|parts| - 1];
    assert all[..|all| - 1] == [p] + init;
    if init == [] {
      assert [p] + init == [p];
      assert parts == [last];
    } else {
      JoinCommaCons(p, init);
    }
  }

  /** Appending a task to a non-empty list appends exactly one comma and the
      task's element to the array body, whatever the titles hold: elements
      appear once each, in task order. */
  lemma JoinElementsSnoc(tasks: seq<Task>, t: Task)
    requires tasks != []
    ensures JoinComma(Elements(tasks + [t])) == JoinComma(Elements(tasks)) + "," + Element(t)
  {
    var all := Elements(tasks + [t]);
    assert all[..|all| - 1] == Elements(tasks);
    assert all[|all| - 1] == Element(t);
  }

  /** The flag in an element reads true exactly for a completed task and
      false exactly for an active one. */
  lemma FlagMapping(t: Task)
    ensures KeyCompleted + "true" <= Element(t) <==> t.taskType == Completed
    ensures KeyCompleted + "false" <= Element(t) <==> t.taskType == Active
  {
    var e := Element(t);
    var k := |KeyCompleted|;
    assert e == KeyCompleted + (Flag(t.taskType) + KeyTitle + t.text + CloseElement);
    assert e[k] == if t.taskType == Active then 'f' else 't';
    if t.taskType == Active {
      assert e[..k + 5] == KeyCompleted + "false";
    } else {
      assert e[..k + 4] == KeyCompleted + "true";
    }
  }

  /** The script holds as many "completed":true elements as there are
      completed tasks. */
  lemma {:induction false} TrueFlagsCountCompleted(tasks: seq<Task>)
    ensures TrueFlagCount(Elements(tasks)) == CompletedCount(tasks)
    decreases |tasks|
  {
    if tasks != [] {
      var init := tasks[..|tasks| - 1];
      assert Elements(tasks)[..|tasks| - 1] == Elements(init);
      TrueFlagsCountCompleted(init);
      FlagMapping(tasks[|tasks| - 1]);
    }
  }
}
