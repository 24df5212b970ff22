/**
 * The shared bulletin board: post-its, free-hand drawings and text items on
 * one surface. The page's React state is the fields of a `Board` object and
 * each event handler is a method on it. Pointer positions arrive already in
 * canvas coordinates; calls to the database become out-parameters holding
 * the request sent, and the rows the database sends back become arguments
 * of the methods that receive them.
 */
module BulletinBoard {
  import opened Wrappers
  import opened Lists
  import Validation

  datatype Point = Point(x: real, y: real)

  datatype PostIt = PostIt(id: int, x: real, y: real, text: string, color: string)

  /** One stroke: its points, colour and brush size. */
  datatype DrawingPath = DrawingPath(points: seq<Point>, color: string, size: int)

  datatype Drawing = Drawing(id: int, paths: seq<DrawingPath>)

  datatype TextItem = TextItem(id: int, x: real, y: real, text: string, fontSize: int, color: string)

  /** A row of the text table as the database returns it. */
  datatype TextRow = TextRow(id: int, x: real, y: real, text: string, font_size: int, color: string)

  datatype Tool = PostItTool | DrawTool | TextTool

  datatype ItemKind = PostItItem | TextItemKind

  /** The item being dragged and where the pointer holds it. */
  datatype Drag = Drag(kind: ItemKind, id: int, offsetX: real, offsetY: real)

  /** A post-it to create, before the database gives it an id. */
  datatype NewPostIt = NewPostIt(x: real, y: real, text: string, color: string)

  /** A text item to create. */
  datatype NewText = NewText(x: real, y: real, text: string, font_size: int, color: string)

  /** What a finished drag writes back. */
  datatype Saved = SavedPostIt(postIt: PostIt) | SavedText(item: TextItem)

  const MinBrush: int := 1
  const MaxBrush: int := 20
  const DefaultBrush: int := 3
  const DefaultColor: string := "#FFD700"
  const NewPostItText: string := "Ny anteckning"
  const TextFontSize: int := 20
  const TextColor: string := "#000000"

  /** The colour buttons, in toolbar order. */
  const Palette: seq<string> := ["#000000", "#FFFFFF", "#FF0000", "#00FF00", "#0000FF", "#FFFF00", "#FF00FF",
    "#00FFFF", "#FFA500", "#800080", "#FFC0CB", "#A52A2A", "#808080", "#FFD700", "#4ECDC4"]

  // ---------------------------------------------------------------------------
  // Brush size
  // ---------------------------------------------------------------------------

  /** The "−" button: one smaller, but never below 1. */
  function BrushDown(size: int): (r: int)
    ensures r >= MinBrush
    ensures size > MinBrush ==> r == size - 1
    ensures size <= MinBrush ==> r == MinBrush
  {
    if size - 1 < MinBrush then MinBrush else size - 1
  }

  /** The "+" button: one larger, but never above 20. */
  function BrushUp(size: int): (r: int)
    ensures r <= MaxBrush
    ensures size < MaxBrush ==> r == size + 1
    ensures size >= MaxBrush ==> r == MaxBrush
  {
    if size + 1 > MaxBrush then MaxBrush else size + 1
  }

  /** The brush size after a run of clicks; `true` is "+" and `false` is "−". */
  function BrushAfter(size: int, clicks: seq<bool>): int
    decreases |clicks|
  {
    if clicks == [] then size
    else BrushAfter(if clicks[0] then BrushUp(size) else BrushDown(size), clicks[1..])
  }

  /** From any size in range, every run of clicks keeps the brush within 1..20. */
  lemma {:induction false} BrushStaysInRange(size: int, clicks: seq<bool>)
    requires MinBrush <= size <= MaxBrush
    ensures MinBrush <= BrushAfter(size, clicks) <= MaxBrush
    decreases |clicks|
  {
    if clicks != [] {
      BrushStaysInRange(if clicks[0] then BrushUp(size) else BrushDown(size), clicks[1..]);
    }
  }

  /** Away from the clamps "+" and "−" undo each other: `u` ups then `d` downs end at `size + u - d`. */
  lemma {:induction false} UpsThenDowns(size: int, u: nat, d: nat)
    requires size + u <= MaxBrush && size + u - d >= MinBrush
    ensures BrushAfter(size, seq(u, _ => true) + seq(d, _ => false)) == size + u - d
    decreases u + d
  {
    var clicks := seq(u, _ => true) + seq(d, _ => false);
    if u > 0 {
      assert clicks[0] && clicks[1..] == seq(u - 1, _ => true) + seq(d, _ => false);
      UpsThenDowns(size + 1, u - 1, d);
    } else if d > 0 {
      assert !clicks[0] && clicks[1..] == seq(0, _ => true) + seq(d - 1, _ => false);
      UpsThenDowns(size - 1, 0, d - 1);
    }
  }

  // ---------------------------------------------------------------------------
  // List edits
  // ---------------------------------------------------------------------------

  /** The post-its after a drag step: those with the id move to `(x, y)`, nothing else changes. */
  function MovePostIts(items: seq<PostIt>, id: int, x: real, y: real): (r: seq<PostIt>)
    ensures |r| == |items|
    ensures forall i | 0 <= i < |r| ::
      r[i] == if items[i].id == id then items[i].(x := x, y := y) else items[i]
  {
    seq(|items|, i requires 0 <= i < |items| => if items[i].id == id then items[i].(x := x, y := y) else items[i])
  }

  /**
   * The text items after a drag step: the same position update as
   * `MovePostIts`, for the page's second kind of movable item.
   */
  function MoveTexts(items: seq<TextItem>, id: int, x: real, y: real): (r: seq<TextItem>)
    ensures |r| == |items|
    ensures forall i | 0 <= i < |r| ::
      r[i] == if items[i].id == id then items[i].(x := x, y := y) else items[i]
  {
    seq(|items|, i requires 0 <= i < |items| => if items[i].id == id then items[i].(x := x, y := y) else items[i])
  }

  /** `postIts.find(p => p.id === id)`: the first post-it with the id. */
  function FindPostIt(items: seq<PostIt>, id: int): (r: Option<PostIt>)
    ensures r.None? <==> forall p | p in items :: p.id != id
    ensures r.Some? ==> (r.value in items && r.value.id == id &&
      exists k | 0 <= k < |items| :: items[k] == r.value && forall j | 0 <= j < k :: items[j].id != id)
  {
    if items == [] then None
    else if items[0].id == id then Some(items[0])
    else
      var rest := FindPostIt(items[1..], id);
      if rest.Some? then
        var k :| 0 <= k < |items[1..]| && items[1..][k] == rest.value && forall j | 0 <= j < k :: items[1..][j].id != id;
        assert items[k + 1] == rest.value;
        rest
      else rest
  }

  /** `textItems.find(t => t.id === id)`: the first text item with the id. */
  function FindText(items: seq<TextItem>, id: int): (r: Option<TextItem>)
    ensures r.None? <==> forall t | t in items :: t.id != id
    ensures r.Some? ==> (r.value in items && r.value.id == id &&
      exists k | 0 <= k < |items| :: items[k] == r.value && forall j | 0 <= j < k :: items[j].id != id)
  {
    if items == [] then None
    else if items[0].id == id then Some(items[0])
    else
      var rest := FindText(items[1..], id);
      if rest.Some? then
        var k :| 0 <= k < |items[1..]| && items[1..][k] == rest.value && forall j | 0 <= j < k :: items[1..][j].id != id;
        assert items[k + 1] == rest.value;
        rest
      else rest
  }

  /** Every post-it with the id becomes `updated`. */
  function ReplacePostIts(items: seq<PostIt>, id: int, updated: PostIt): (r: seq<PostIt>)
    ensures |r| == |items|
    ensures forall i | 0 <= i < |r| :: r[i] == if items[i].id == id then updated else items[i]
  {
    seq(|items|, i requires 0 <= i < |items| => if items[i].id == id then updated else items[i])
  }

  /** The ids in a list are distinct, as the database's keys are. */
  predicate UniquePostItIds(items: seq<PostIt>) {
    forall a, b | 0 <= a < b < |items| :: items[a].id != items[b].id
  }

  /** `updatePostIt` as a value: the first post-it with the id, with the new text, replaces every one with the id. */
  function UpdatedPostIts(items: seq<PostIt>, id: int, text: string): seq<PostIt> {
    var found := FindPostIt(items, id);
    if found.Some? then ReplacePostIts(items, id, found.value.(text := text)) else items
  }

  /** With distinct ids, `updatePostIt` changes the text of the matching post-it and nothing else. */
  lemma UpdateChangesOnlyText(items: seq<PostIt>, id: int, text: string)
    requires UniquePostItIds(items)
    ensures var r := UpdatedPostIts(items, id, text);
      |r| == |items| &&
      forall i | 0 <= i < |r| :: r[i] == if items[i].id == id then items[i].(text := text) else items[i]
  {
    var found := FindPostIt(items, id);
    if found.Some? {
      forall i | 0 <= i < |items| && items[i].id == id ensures items[i] == found.value {
        var k :| 0 <= k < |items| && items[k] == found.value && forall j | 0 <= j < k :: items[j].id != id;
        assert i == k;
      }
    }
  }

  /** The delete handlers: exactly the items with the id are gone, the rest stay in order. */
  function RemovePostIt(items: seq<PostIt>, id: int): (r: seq<PostIt>)
    ensures forall p | p in r :: p in items && p.id != id
  {
    Filter(items, (p: PostIt) => p.id != id)
  }

  function RemoveDrawing(items: seq<Drawing>, id: int): (r: seq<Drawing>)
    ensures forall d | d in r :: d in items && d.id != id
  {
    Filter(items, (d: Drawing) => d.id != id)
  }

  function RemoveText(items: seq<TextItem>, id: int): (r: seq<TextItem>)
    ensures forall t | t in r :: t in items && t.id != id
  {
    Filter(items, (t: TextItem) => t.id != id)
  }

  /** Deleting keeps every item with another id, as often as it was there. */
  lemma RemovePostItKeepsOthers(items: seq<PostIt>, id: int, p: PostIt)
    ensures multiset(RemovePostIt(items, id))[p] == if p.id == id then 0 else multiset(items)[p]
  {
    FilterCount(items, (q: PostIt) => q.id != id, p);
  }

  lemma RemoveDrawingKeepsOthers(items: seq<Drawing>, id: int, d: Drawing)
    ensures multiset(RemoveDrawing(items, id))[d] == if d.id == id then 0 else multiset(items)[d]
  {
    FilterCount(items, (q: Drawing) => q.id != id, d);
  }

  lemma RemoveTextKeepsOthers(items: seq<TextItem>, id: int, t: TextItem)
    ensures multiset(RemoveText(items, id))[t] == if t.id == id then 0 else multiset(items)[t]
  {
    FilterCount(items, (q: TextItem) => q.id != id, t);
  }

  /** The text item the page keeps for a row the database returns. */
  function FromTextRow(row: TextRow): (t: TextItem)
    ensures t.id == row.id && t.x == row.x && t.y == row.y && t.text == row.text
    ensures t.fontSize == row.font_size && t.color == row.color
  {
    TextItem(row.id, row.x, row.y, row.text, row.font_size, row.color)
  }

  // ---------------------------------------------------------------------------
  // Post-it creation replies
  // ---------------------------------------------------------------------------

  /**
   * The reply handler as written: the list it extends is the one the click
   * handler saw, not the list as it is when the reply arrives.
   */
  function PostItReplyAsWritten(current: seq<PostIt>, seen: seq<PostIt>, created: PostIt): (r: seq<PostIt>)
    ensures |r| == |seen| + 1 && r[..|seen|] == seen && r[|seen|] == created
  {
    seen + [created]
  }

  /** The reply handler extending the list as it is when the reply arrives. */
  function PostItReply(current: seq<PostIt>, created: PostIt): (r: seq<PostIt>)
    ensures |r| == |current| + 1 && r[..|current|] == current && r[|current|] == created
  {
    current + [created]
  }

  /**
   * Two post-its created from the same screen: when the second reply lands
   * the first post-it is gone from the page.
   */
  lemma QuickPostItsLoseOne(before: seq<PostIt>, first: PostIt, second: PostIt)
    requires first !in before && first != second
    ensures var after := PostItReplyAsWritten(PostItReplyAsWritten(before, before, first), before, second);
      first !in after && second in after
  {
    var after := PostItReplyAsWritten(PostItReplyAsWritten(before, before, first), before, second);
    assert after == before + [second];
    assert second == after[|before|];
  }

  /** Extending the current list keeps every post-it created, in the order the replies arrive. */
  lemma {:induction false} RepliesKeepAll(before: seq<PostIt>, created: seq<PostIt>)
    ensures PostItReplies(before, created) == before + created
    decreases |created|
  {
    if created != [] {
      RepliesKeepAll(PostItReply(before, created[0]), created[1..]);
      assert before + [created[0]] + created[1..] == before + created;
    }
  }

  /** A post-it deleted while a creation request is out stays deleted when the corrected reply lands. */
  lemma DeletedPostItStaysDeleted(items: seq<PostIt>, id: int, created: PostIt)
    requires created.id != id
    ensures forall p | p in PostItReply(RemovePostIt(items, id), created) :: p.id != id
  {
  }

  /** The list after the replies in `created` have arrived one after another. */
  function PostItReplies(current: seq<PostIt>, created: seq<PostIt>): seq<PostIt>
    decreases |created|
  {
    if created == [] then current else PostItReplies(PostItReply(current, created[0]), created[1..])
  }

  // ---------------------------------------------------------------------------
  // Text creation replies
  // ---------------------------------------------------------------------------

  /**
   * The text reply handler as written: it extends the text items `addText`
   * saw, not the list as it is when the reply arrives.
   */
  function TextReplyAsWritten(current: seq<TextItem>, seen: seq<TextItem>, created: TextRow): (r: seq<TextItem>)
    ensures |r| == |seen| + 1 && r[..|seen|] == seen && r[|seen|] == FromTextRow(created)
  {
    seen + [FromTextRow(created)]
  }

  /** The text reply handler extending the list as it is when the reply arrives. */
  function TextReply(current: seq<TextItem>, created: TextRow): (r: seq<TextItem>)
    ensures |r| == |current| + 1 && r[..|current|] == current && r[|current|] == FromTextRow(created)
  {
    current + [FromTextRow(created)]
  }

  /**
   * A text item deleted while a creation request is out comes back when
   * the reply lands.
   */
  lemma DeletedTextReturns(item: TextItem, created: TextRow)
    requires created.id != item.id
    ensures var current := RemoveText([item], item.id);
      current == [] && item in TextReplyAsWritten(current, [item], created) &&
      item !in TextReply(current, created)
  {
    var current := RemoveText([item], item.id);
    assert item !in current;
    assert TextReplyAsWritten(current, [item], created)[0] == item;
    assert TextReply(current, created) == current + [FromTextRow(created)];
  }

  /** A text item deleted while a creation request is out stays deleted when the corrected reply lands. */
  lemma DeletedTextStaysDeleted(items: seq<TextItem>, id: int, created: TextRow)
    requires created.id != id
    ensures forall t | t in TextReply(RemoveText(items, id), created) :: t.id != id
  {
  }

  // ---------------------------------------------------------------------------
  // The board
  // ---------------------------------------------------------------------------

  class Board {
    var postIts: seq<PostIt>
    var drawings: seq<Drawing>
    var textItems: seq<TextItem>
    var tool: Option<Tool>
    var selectedColor: string
    var brushSize: int
    var isDrawing: bool
    var currentPath: seq<Point>
    var currentText: string
    var showTextInput: bool
    var textPosition: Point
    var dragging: Option<Drag>
    var wasDragging: bool

    /**
     * The stroke in progress is never empty while drawing and always empty
     * otherwise; the brush is in range; the colour is one of the buttons'.
     */
    ghost predicate Valid()
      reads this
    {
      MinBrush <= brushSize <= MaxBrush && (isDrawing <==> currentPath != []) && selectedColor in Palette
    }

    /** The board as first shown, holding what was loaded. */
    constructor(loadedPostIts: seq<PostIt>, loadedDrawings: seq<Drawing>, loadedTexts: seq<TextItem>)
      ensures Valid()
      ensures postIts == loadedPostIts && drawings == loadedDrawings && textItems == loadedTexts
      ensures tool == None && selectedColor == DefaultColor && brushSize == DefaultBrush
      ensures !isDrawing && currentPath == [] && currentText == "" && !showTextInput
      ensures dragging == None && !wasDragging
    {
      postIts := loadedPostIts;
      drawings := loadedDrawings;
      textItems := loadedTexts;
      tool := None;
      selectedColor := DefaultColor;
      brushSize := DefaultBrush;
      isDrawing := false;
      currentPath := [];
      currentText := "";
      showTextInput := false;
      textPosition := Point(0.0, 0.0);
      dragging := None;
      wasDragging := false;
    }

    /** A toolbar button: a tool, or none. */
    method SelectTool(t: Option<Tool>)
      requires Valid()
      modifies this`tool
      ensures Valid()
      ensures tool == t && unchanged(this`postIts, this`drawings, this`textItems, this`isDrawing, this`currentPath)
      ensures brushSize == old(brushSize) && selectedColor == old(selectedColor)
    {
      tool := t;
    }

    /** The "−" brush button. */
    method BrushSmaller()
      requires Valid()
      modifies this`brushSize
      ensures Valid()
      ensures brushSize == BrushDown(old(brushSize))
    {
      brushSize := BrushDown(brushSize);
    }

    /** The "+" brush button. */
    method BrushLarger()
      requires Valid()
      modifies this`brushSize
      ensures Valid()
      ensures brushSize == BrushUp(old(brushSize))
    {
      brushSize := BrushUp(brushSize);
    }

    /** `handleCanvasMouseDown`: with the pen selected a stroke starts at the point; otherwise nothing. */
    method CanvasMouseDown(p: Point)
      requires Valid()
      modifies this`isDrawing, this`currentPath
      ensures Valid()
      ensures tool == Some(DrawTool) ==> isDrawing && currentPath == [p]
      ensures tool != Some(DrawTool) ==> isDrawing == old(isDrawing) && currentPath == old(currentPath)
    {
      if tool != Some(DrawTool) {
        return;
      }
      isDrawing := true;
      currentPath := [p];
    }

    /** `handleCanvasMouseMove`: the point extends the stroke only while drawing with the pen. */
    method CanvasMouseMove(p: Point)
      requires Valid()
      modifies this`currentPath
      ensures Valid()
      ensures isDrawing && tool == Some(DrawTool) ==> currentPath == old(currentPath) + [p]
      ensures !(isDrawing && tool == Some(DrawTool)) ==> currentPath == old(currentPath)
    {
      if !isDrawing || tool != Some(DrawTool) {
        return;
      }
      currentPath := currentPath + [p];
    }

    /**
     * `handleCanvasMouseUp` (also on leaving the canvas): a stroke of two or
     * more points becomes one new drawing, stamped `now`, holding that one
     * path in the current colour and size; either way the stroke ends.
     */
    method CanvasMouseUp(now: int)
      requires Valid()
      modifies this`isDrawing, this`currentPath, this`drawings
      ensures Valid()
      ensures !isDrawing && currentPath == []
      ensures old(isDrawing) && |old(currentPath)| >= 2 ==>
        drawings == old(drawings) + [Drawing(now, [DrawingPath(old(currentPath), selectedColor, brushSize)])]
      ensures !(old(isDrawing) && |old(currentPath)| >= 2) ==> drawings == old(drawings)
    {
      if !isDrawing || |currentPath| < 2 {
        isDrawing := false;
        currentPath := [];
        return;
      }
      var newPath := DrawingPath(currentPath, selectedColor, brushSize);
      drawings := drawings + [Drawing(now, [newPath])];
      isDrawing := false;
      currentPath := [];
    }

    /**
     * `handleBoardClick`: the click ending a drag is swallowed and clears the
     * flag; otherwise the post-it tool asks for a new note at the point and
     * the text tool opens the text input there.
     */
    method BoardClick(p: Point) returns (request: Option<NewPostIt>)
      requires Valid()
      modifies this`wasDragging, this`textPosition, this`showTextInput
      ensures Valid()
      ensures old(wasDragging) ==> (!wasDragging && request == None &&
        showTextInput == old(showTextInput) && textPosition == old(textPosition))
      ensures !old(wasDragging) ==> !wasDragging
      ensures !old(wasDragging) && tool == Some(PostItTool) ==>
        request == Some(NewPostIt(p.x, p.y, NewPostItText, selectedColor)) &&
        showTextInput == old(showTextInput) && textPosition == old(textPosition)
      ensures !old(wasDragging) && tool == Some(TextTool) ==>
        request == None && showTextInput && textPosition == p
      ensures !old(wasDragging) && tool != Some(PostItTool) && tool != Some(TextTool) ==>
        request == None && showTextInput == old(showTextInput) && textPosition == old(textPosition)
    {
      request := None;
      if wasDragging {
        wasDragging := false;
        return;
      }
      if tool.None? {
        return;
      }
      if tool == Some(PostItTool) {
        request := Some(NewPostIt(p.x, p.y, NewPostItText, selectedColor));
      } else if tool == Some(TextTool) {
        textPosition := p;
        showTextInput := true;
      }
    }

    /**
     * The reply to a post-it request: the created post-it joins the list as
     * it is when the reply arrives (the corrected `PostItReply`).
     */
    method PostItCreated(created: PostIt)
      requires Valid()
      modifies this`postIts
      ensures Valid()
      ensures postIts == PostItReply(old(postIts), created)
    {
      postIts := PostItReply(postIts, created);
    }

    /** A colour button of the palette. */
    method SelectColor(color: string)
      requires Valid() && color in Palette
      modifies this`selectedColor
      ensures Valid() && selectedColor == color
    {
      selectedColor := color;
    }

    /** The cancel button of the text input: the input closes and what was typed is dropped. */
    method CancelText()
      requires Valid()
      modifies this`showTextInput, this`currentText
      ensures Valid() && !showTextInput && currentText == ""
    {
      showTextInput := false;
      currentText := "";
    }

    /** Typing into the text input. */
    method SetText(text: string)
      requires Valid()
      modifies this`currentText
      ensures Valid() && currentText == text
    {
      currentText := text;
    }

    /**
     * `addText`: text that is blank once trimmed does nothing; otherwise a
     * 20-point black text item is requested at the chosen point, with the
     * text as typed, and the input closes.
     */
    method AddText() returns (request: Option<NewText>)
      requires Valid()
      modifies this`currentText, this`showTextInput
      ensures Valid()
      ensures request.None? <==> Validation.AllSpace(old(currentText))
      ensures request.None? ==> currentText == old(currentText) && showTextInput == old(showTextInput)
      ensures request.Some? ==>
        request.value == NewText(textPosition.x, textPosition.y, old(currentText), TextFontSize, TextColor) &&
        currentText == "" && !showTextInput
    {
      request := None;
      if Validation.Trim(currentText) != "" {
        request := Some(NewText(textPosition.x, textPosition.y, currentText, TextFontSize, TextColor));
        currentText := "";
        showTextInput := false;
      } else {
        BlankWhenTrimmedEmpty(currentText);
      }
    }

    /**
     * The reply to a text request: the created item joins the list as it is
     * when the reply arrives (the corrected `TextReply`).
     */
    method TextCreated(created: TextRow)
      requires Valid()
      modifies this`textItems
      ensures Valid()
      ensures textItems == TextReply(old(textItems), created)
    {
      textItems := TextReply(textItems, created);
    }

    /** `updatePostIt`: the note's text changes; a request goes out when the id exists. */
    method UpdatePostIt(id: int, text: string) returns (request: Option<PostIt>)
      requires Valid()
      modifies this`postIts
      ensures Valid()
      ensures postIts == UpdatedPostIts(old(postIts), id, text)
      ensures request.None? <==> forall p | p in old(postIts) :: p.id != id
      ensures request.Some? ==> request == Some(FindPostIt(old(postIts), id).value.(text := text))
    {
      var found := FindPostIt(postIts, id);
      request := None;
      if found.Some? {
        var updated := found.value.(text := text);
        request := Some(updated);
        postIts := ReplacePostIts(postIts, id, updated);
      }
    }

    method DeletePostIt(id: int)
      requires Valid()
      modifies this`postIts
      ensures Valid() && postIts == RemovePostIt(old(postIts), id)
    {
      postIts := RemovePostIt(postIts, id);
    }

    method DeleteDrawing(id: int)
      requires Valid()
      modifies this`drawings
      ensures Valid() && drawings == RemoveDrawing(old(drawings), id)
    {
      drawings := RemoveDrawing(drawings, id);
    }

    method DeleteText(id: int)
      requires Valid()
      modifies this`textItems
      ensures Valid() && textItems == RemoveText(old(textItems), id)
    {
      textItems := RemoveText(textItems, id);
    }

    /** `handleMouseDown` on an item: remember it and where the pointer grabbed it. */
    method ItemMouseDown(kind: ItemKind, id: int, itemX: real, itemY: real, pointer: Point)
      requires Valid()
      modifies this`dragging
      ensures Valid()
      ensures dragging == Some(Drag(kind, id, pointer.x - itemX, pointer.y - itemY))
    {
      dragging := Some(Drag(kind, id, pointer.x - itemX, pointer.y - itemY));
    }

    /**
     * `handleMouseMove` over the board: while dragging, the dragged item
     * follows the pointer, keeping the grab offset, and the drag is noted.
     */
    method BoardMouseMove(pointer: Point)
      requires Valid()
      modifies this`wasDragging, this`postIts, this`textItems
      ensures Valid()
      ensures dragging.None? ==> wasDragging == old(wasDragging) && postIts == old(postIts) && textItems == old(textItems)
      ensures dragging.Some? ==> wasDragging
      ensures dragging.Some? && dragging.value.kind == PostItItem ==>
        postIts == MovePostIts(old(postIts), dragging.value.id,
          pointer.x - dragging.value.offsetX, pointer.y - dragging.value.offsetY) &&
        textItems == old(textItems)
      ensures dragging.Some? && dragging.value.kind == TextItemKind ==>
        textItems == MoveTexts(old(textItems), dragging.value.id,
          pointer.x - dragging.value.offsetX, pointer.y - dragging.value.offsetY) &&
        postIts == old(postIts)
    {
      if dragging.None? {
        return;
      }
      wasDragging := true;
      var newX := pointer.x - dragging.value.offsetX;
      var newY := pointer.y - dragging.value.offsetY;
      if dragging.value.kind == PostItItem {
        postIts := MovePostIts(postIts, dragging.value.id, newX, newY);
      } else {
        textItems := MoveTexts(textItems, dragging.value.id, newX, newY);
      }
    }

    /** `handleMouseUp` over the board: the dragged item's position is saved and the drag ends. */
    method BoardMouseUp() returns (saved: Option<Saved>)
      requires Valid()
      modifies this`dragging
      ensures Valid()
      ensures dragging == None
      ensures old(dragging).None? ==> saved == None
      ensures old(dragging).Some? && old(dragging).value.kind == PostItItem ==>
        (saved.Some? <==> FindPostIt(postIts, old(dragging).value.id).Some?) &&
        (saved.Some? ==> saved.value == SavedPostIt(FindPostIt(postIts, old(dragging).value.id).value))
      ensures old(dragging).Some? && old(dragging).value.kind == TextItemKind ==>
        (saved.Some? <==> FindText(textItems, old(dragging).value.id).Some?) &&
        (saved.Some? ==> saved.value == SavedText(FindText(textItems, old(dragging).value.id).value))
    {
      saved := None;
      if dragging.Some? {
        if dragging.value.kind == PostItItem {
          var p := FindPostIt(postIts, dragging.value.id);
          if p.Some? {
            saved := Some(SavedPostIt(p.value));
          }
        } else {
          var t := FindText(textItems, dragging.value.id);
          if t.Some? {
            saved := Some(SavedText(t.value));
          }
        }
      }
      dragging := None;
    }
  }

  /** Text that trims to nothing is all white space. */
  lemma BlankWhenTrimmedEmpty(s: string)
    requires Validation.Trim(s) == ""
    ensures Validation.AllSpace(s)
  {
  }

  /** A drag step moves only the dragged post-it, and only its position. */
  lemma DragMovesOnlyTarget(items: seq<PostIt>, id: int, x: real, y: real, i: int)
    requires 0 <= i < |items|
    ensures var r := MovePostIts(items, id, x, y);
      r[i].id == items[i].id && r[i].text == items[i].text && r[i].color == items[i].color &&
      (items[i].id != id ==> r[i] == items[i]) &&
      (items[i].id == id ==> r[i].x == x && r[i].y == y)
  {
  }
}
