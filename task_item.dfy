/**
 * The task record (Models/TaskItem.cs): a mutable object with five settable
 * properties and no behaviour of its own, plus the whitespace test that the
 * service applies to its owner.
 */
module Models {

  /**
   * A C# `string` reference that may be null (`string?`, or a non-nullable
   * `string` that was assigned null anyway).
   */
  datatype NullableString = Null | Str(value: string)

  /**
   * .NET's `char.IsWhiteSpace`: the characters of the Unicode categories
   * SpaceSeparator, LineSeparator and ParagraphSeparator, plus U+0009..U+000D
   * and U+0085, written out by code point.
   */
  predicate IsWhiteSpace(c: char) {
    var n := c as int;
    (0x09 <= n <= 0x0D) || n == 0x20 || n == 0x85 || n == 0xA0 || n == 0x1680
    || (0x2000 <= n <= 0x200A) || n == 0x2028 || n == 0x2029 || n == 0x202F
    || n == 0x205F || n == 0x3000
  }

  /** .NET's `string.IsNullOrWhiteSpace`: null, empty, or whitespace only. */
  predicate IsNullOrWhiteSpace(s: NullableString) {
    match s
    case Null => true
    case Str(str) => forall i :: 0 <= i < |str| ==> IsWhiteSpace(str[i])
  }

  /**
   * The value held by one task object at one moment; used to talk about the
   * contents of the service's list without talking about the heap.
   */
  datatype TaskView = TaskView(
    id: int,
    title: string,
    description: NullableString,
    isCompleted: bool,
    userId: NullableString)

  /**
   * One task. `Id` and `IsCompleted` are C# auto-properties without an
   * initialiser, so they start at `0` and `false`; `Title` and `UserId`
   * start at the empty string; `Description` is nullable and starts absent.
   * C#'s 32-bit `int` is unbounded here: the only id ever computed is a list
   * count plus one, and a .NET list holds fewer than 2^31 - 1 elements.
   */
  class TaskItem {
    var id: int
    var title: string
    var description: NullableString
    var isCompleted: bool
    var userId: NullableString

    /** `new TaskItem()`: every property at its default. */
    constructor ()
      ensures id == 0 && title == "" && description == Null
      ensures !isCompleted && userId == Str("")
    {
      id := 0;
      title := "";
      description := Null;
      isCompleted := false;
      userId := Str("");
    }

    /** The current values of all five properties. */
    function Snapshot(): TaskView
      reads this
    {
      TaskView(id, title, description, isCompleted, userId)
    }
  }

  /** The default owner `""` is blank, so a task left at its defaults is refused. */
  lemma DefaultOwnerIsBlank()
    ensures IsNullOrWhiteSpace(Str(""))
  {
  }
}
