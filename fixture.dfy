// The fixture data model of the TodoMVC end-to-end suite: a task to be
// pre-loaded into the application's local storage before a scenario runs.

module Fixture {

  /** Completion state of a fixture task (the Java enum TaskType). */
  datatype TaskType = Active | Completed

  /** A fixture task: its title text and its completion state. The Java
      class is never mutated after construction, so it is a value here. */
  datatype Task = Task(text: string, taskType: TaskType)

  /** aTask: the factory the scenarios use to build one fixture. */
  function ATask(text: string, taskType: TaskType): (t: Task)
    ensures t.text == text && t.taskType == taskType
  {
    Task(text, taskType)
  }

  /** The tasks that givenAtAll builds: one per text, in order, all of one type. */
  function AllOfType(mainType: TaskType, texts: seq<string>): seq<Task>
  {
    seq(|texts|, i requires 0 <= i < |texts| => Task(texts[i], mainType))
  }

  /** The titles of a list of tasks, in order. */
  function Texts(tasks: seq<Task>): seq<string>
  {
    seq(|tasks|, i requires 0 <= i < |tasks| => tasks[i].text)
  }

  /** How many tasks of the list are completed. */
  function CompletedCount(tasks: seq<Task>): (n: nat)
    ensures n <= |tasks|
  {
    if tasks == [] then 0
    else CompletedCount(tasks[..|tasks| - 1]) + (if tasks[|tasks| - 1].taskType == Completed then 1 else 0)
  }

  /** givenAtAll's tasks carry exactly the given texts, in order, and every
      one of them has the shared type. */
  lemma AllOfTypeTexts(mainType: TaskType, texts: seq<string>)
    ensures Texts(AllOfType(mainType, texts)) == texts
    ensures forall t :: t in AllOfType(mainType, texts) ==> t.taskType == mainType
  {
  }

  /** With a shared type, either every task is completed or none is, so the
      "items left" count is the number of texts or zero. */
  lemma {:induction false} AllOfTypeCompletedCount(mainType: TaskType, texts: seq<string>)
    ensures CompletedCount(AllOfType(mainType, texts)) == if mainType == Completed then |texts| else 0
    decreases |texts|
  {
    if texts != [] {
      var init := texts[..|texts| - 1];
      assert AllOfType(mainType, texts)[..|texts| - 1] == AllOfType(mainType, init);
      AllOfTypeCompletedCount(mainType, init);
    }
  }
}
