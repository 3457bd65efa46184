/** The drag-and-drop helper: which list position is being dragged, which
    one it hovers over, and committing the move once the caller's
    `updateOrder` callback accepted the new order. */
module DragAndDrop {
  import opened Wrappers
  import opened ListMove

  class DragState<T> {
    var items: seq<T>
    var draggedItem: Option<int>
    var targetItem: Option<int>
    var isDragging: bool

    /** The remembered positions are positions of `items`. */
    ghost predicate Valid()
      reads this
    {
      (draggedItem.Some? ==> 0 <= draggedItem.value < |items|) &&
      (targetItem.Some? ==> 0 <= targetItem.value < |items|)
    }

    constructor (items: seq<T>)
      ensures Valid()
      ensures this.items == items && draggedItem.None? && targetItem.None? && !isDragging
    {
      this.items := items;
      draggedItem := None;
      targetItem := None;
      isDragging := false;
    }

    /** `onDragStart(index)`: remember the dragged position. */
    method OnDragStart(index: int)
      requires Valid() && 0 <= index < |items|
      modifies this
      ensures Valid()
      ensures draggedItem == Some(index) && isDragging
      ensures items == old(items) && targetItem == old(targetItem)
    {
      draggedItem := Some(index);
      isDragging := true;
    }

    /** `onDragEnd()`: forget the drag. */
    method OnDragEnd()
      requires Valid()
      modifies this
      ensures Valid()
      ensures draggedItem.None? && targetItem.None? && !isDragging
      ensures items == old(items)
    {
      draggedItem := None;
      targetItem := None;
      isDragging := false;
    }

    /** `onDragOver(index)`: remember the hovered position, but only while
        something is being dragged. */
    method OnDragOver(index: int)
      requires Valid() && 0 <= index < |items|
      modifies this
      ensures Valid()
      ensures old(draggedItem).None? ==> targetItem == old(targetItem)
      ensures old(draggedItem).Some? ==> targetItem == Some(index)
      ensures items == old(items) && draggedItem == old(draggedItem) && isDragging == old(isDragging)
    {
      if draggedItem.None? {
        return;
      }
      targetItem := Some(index);
    }

    /** `onDrop()`: nothing without both positions. Otherwise offer the
        moved list to `updateOrder`; keep it only if that succeeded, and
        end the drag either way. Returns the list offered, if any. */
    method OnDrop(updateOrder: Outcome<()>) returns (offered: Option<seq<T>>)
      requires Valid()
      modifies this
      ensures Valid()
      ensures old(draggedItem).None? || old(targetItem).None? ==>
        offered.None? && items == old(items) && draggedItem == old(draggedItem) &&
        targetItem == old(targetItem) && isDragging == old(isDragging)
      ensures old(draggedItem).Some? && old(targetItem).Some? ==>
        offered == Some(Move(old(items), old(draggedItem).value, old(targetItem).value)) &&
        items == (if updateOrder.Success? then offered.value else old(items)) &&
        draggedItem.None? && targetItem.None? && !isDragging
    {
      if draggedItem.None? || targetItem.None? {
        offered := None;
        return;
      }
      var newItems := Move(items, draggedItem.value, targetItem.value);
      offered := Some(newItems);
      if updateOrder.Success? {
        items := newItems;
      }
      OnDragEnd();
    }
  }
}
