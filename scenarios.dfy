/**
 * Clients of the service that walk through the registry's example
 * scenarios using nothing but the operations' contracts.
 */
module Scenarios {
  import opened Models
  import opened Services

  /** A task for "alice" is stored as task 1. */
  method AddScenario() {
    var service := new TaskService();
    var milk := new TaskItem();
    milk.title := "Buy milk";
    milk.userId := Str("alice");
    assert !IsWhiteSpace("alice"[0]);
    service.AddTask(milk);
    assert service.tasks.items == [milk] && milk.id == 1;
    assert milk.title == "Buy milk" && !milk.isCompleted;
  }

  /** A task with an empty owner and a null task are refused. */
  method RejectScenario() {
    var service := new TaskService();
    var blank := new TaskItem();
    blank.title := "X";
    service.AddTask(blank);
    assert service.tasks.items == [] && blank.id == 0;

    service.AddTask(null);
    assert service.tasks.items == [];
  }

  /** A task for "alice" and one for "bob": each owner sees their own, GetTasks sees both. */
  method OwnersScenario() {
    var service := new TaskService();
    var alice, bob := Str("alice"), Str("bob");
    assert !IsWhiteSpace("alice"[0]) && !IsWhiteSpace("bob"[0]);
    var milk := new TaskItem();
    milk.userId := alice;
    var post := new TaskItem();
    post.userId := bob;
    assert Filter([], alice) == [] && Filter([], bob) == [];
    service.AddTask(milk);
    assert Filter(service.tasks.items, alice) == [milk] && Filter(service.tasks.items, bob) == [];
    service.AddTask(post);
    assert Filter(service.tasks.items, alice) == [milk];
    assert Filter(service.tasks.items, bob) == [post];
    var all := service.GetTasks();
    assert |all.items| == 2;
  }

  /** Completing task 1 sets its flag, completing task 999 changes nothing, unchecking clears it. */
  method CompletionScenario() {
    var service := new TaskService();
    var milk := new TaskItem();
    milk.userId := Str("alice");
    assert !IsWhiteSpace("alice"[0]);
    service.AddTask(milk);
    assert service.tasks.items == [milk] && SequentialIds(service.tasks.items);

    service.FindTaskBySequentialId(1);
    service.CompleteTask(1);
    assert milk.isCompleted;
    service.FindTaskBySequentialId(999);
    service.CompleteTask(999);
    assert milk.isCompleted && service.tasks.items == [milk];
    service.FindTaskBySequentialId(1);
    service.UncheckTask(1);
    assert !milk.isCompleted && milk.id == 1;
  }
}
