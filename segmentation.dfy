/**
 * The segmentation script: `parse_json`, which removes a Markdown code
 * fence from the model's answer, and `extract_segmentation_masks`, which
 * turns each returned item into a pixel box, checks its PNG data URL,
 * paints a mask overlay the size of the image and names the two files it
 * saves. PIL, base64 decoding, resizing and file output are foreign: the
 * resized masks are given as 2-D arrays and the saved files are returned.
 */
module Segmentation {
  import opened Wrappers
  import opened Text
  import opened Boxes

  /** The line that opens a fenced JSON block. */
  const OpeningFence: string := "```json"

  /** The marker `parse_json` splits on to cut a closing fence. */
  const ClosingFence: string := "```"

  /** Index of the first line equal to the opening fence. */
  function FenceLine(lines: seq<string>): (r: Option<nat>)
    ensures r.None? <==> OpeningFence !in lines
    ensures r.Some? ==> r.value < |lines| && lines[r.value] == OpeningFence && OpeningFence !in lines[..r.value]
  {
    if lines == [] then None
    else if lines[0] == OpeningFence then Some(0)
    else
      var r := FenceLine(lines[1..]);
      if r.None? then None
      else
        assert lines[..r.value + 1] == [lines[0]] + lines[1..][..r.value];
        Some(r.value + 1)
  }

  /** `parse_json` as written: after the first opening-fence line the
      remaining lines are joined back, and that is returned; the cut at a
      closing fence is computed into a variable nobody reads. */
  function ParseJson(text: string): (r: string)
    ensures FenceLine(SplitLines(text)).None? ==> r == text
    ensures FenceLine(SplitLines(text)).Some? ==>
      r == Join(SplitLines(text)[FenceLine(SplitLines(text)).value + 1..], "\n")
  {
    var lines := SplitLines(text);
    match FenceLine(lines)
    case None => text
    case Some(i) => Join(lines[i + 1..], "\n")
  }

  /** `p` occurs in `t` at position `j`. */
  predicate OccursAt(t: string, p: string, j: nat) {
    j + |p| <= |t| && t[j..j + |p|] == p
  }

  lemma OccursShift(t: string, p: string)
    requires t != []
    ensures forall j: nat :: OccursAt(t, p, j + 1) <==> OccursAt(t[1..], p, j)
  {
    forall j: nat ensures OccursAt(t, p, j + 1) <==> OccursAt(t[1..], p, j) {
      if j + 1 + |p| <= |t| {
        var a, b := t[j + 1..j + 1 + |p|], t[1..][j..j + |p|];
        forall k | 0 <= k < |p| ensures a[k] == b[k] {
          assert a[k] == t[j + 1 + k] && b[k] == t[1..][j + k];
        }
        assert a == b;
      }
    }
  }

  /** First position where `p` occurs in `t`. */
  function FindSub(t: string, p: string): (r: Option<nat>)
    requires p != []
    ensures r.Some? ==> OccursAt(t, p, r.value)
    ensures r.Some? ==> forall j: nat :: j < r.value ==> !OccursAt(t, p, j)
    ensures r.None? ==> forall j: nat :: !OccursAt(t, p, j)
    decreases |t|
  {
    if |t| < |p| then None
    else if t[..|p|] == p then Some(0)
    else
      var r := FindSub(t[1..], p);
      OccursShift(t, p);
      assert !OccursAt(t, p, 0);
      assert forall j: nat :: OccursAt(t, p, j) ==> j > 0 && OccursAt(t[1..], p, j - 1);
      if r.None? then None else Some(r.value + 1)
  }

  /** Python `t.split(p)[0]`: the text before the first occurrence of `p`. */
  function BeforeFirst(t: string, p: string): (r: string)
    requires p != []
    ensures FindSub(t, p).None? ==> r == t
    ensures FindSub(t, p).Some? ==> r == t[..FindSub(t, p).value]
  {
    match FindSub(t, p)
    case None => t
    case Some(i) => t[..i]
  }

  /** `parse_json` as its comments describe it: the block after the opening
      fence, cut before the closing fence. */
  function ParseJsonFenced(text: string): (r: string)
    ensures FenceLine(SplitLines(text)).None? ==> r == text
    ensures FenceLine(SplitLines(text)).Some? ==> r == BeforeFirst(ParseJson(text), ClosingFence)
  {
    var lines := SplitLines(text);
    match FenceLine(lines)
    case None => text
    case Some(i) => BeforeFirst(Join(lines[i + 1..], "\n"), ClosingFence)
  }

  /** A fenced answer: an opening-fence line, the body lines, a closing
      fence line. */
  function Fenced(body: seq<string>): (t: string) {
    Join([OpeningFence] + body + [ClosingFence], "\n")
  }

  /** Body lines that hold no line boundary and no backtick. */
  predicate PlainLines(body: seq<string>) {
    forall k :: 0 <= k < |body| ==> NoLineBreak(body[k]) && '`' !in body[k]
  }

  lemma FencedLines(body: seq<string>)
    requires PlainLines(body)
    ensures SplitLines(Fenced(body)) == [OpeningFence] + body + [ClosingFence]
    ensures FenceLine(SplitLines(Fenced(body))) == Some(0)
  {
    var lines := [OpeningFence] + body + [ClosingFence];
    forall k | 0 <= k < |lines| ensures NoLineBreak(lines[k]) {
      if 0 < k < |lines| - 1 { assert lines[k] == body[k - 1]; }
    }
    SplitLinesJoin(lines);
  }

  /** As written, the closing fence stays in the result. */
  lemma ParseJsonKeepsClosingFence(body: seq<string>)
    requires PlainLines(body)
    ensures ParseJson(Fenced(body)) == Join(body + [ClosingFence], "\n")
  {
    FencedLines(body);
    var lines := [OpeningFence] + body + [ClosingFence];
    assert lines[1..] == body + [ClosingFence];
  }

  /** The texts of the model's usual answer for an empty list. */
  lemma EmptyListTexts()
    ensures PlainLines(["[]"])
    ensures Fenced(["[]"]) == "```json\n[]\n```"
    ensures Join(["[]"] + [ClosingFence], "\n") == "[]\n```"
  {
    assert NoLineBreak("[]");
    JoinAppend([OpeningFence], "[]", "\n");
    JoinAppend([OpeningFence, "[]"], ClosingFence, "\n");
    assert [OpeningFence] + ["[]"] + [ClosingFence] == [OpeningFence, "[]"] + [ClosingFence];
    JoinAppend(["[]"], ClosingFence, "\n");
  }

  /** That answer comes back with its closing fence attached, which
      `json.loads` rejects. */
  lemma ParseJsonCounterexample()
    ensures ParseJson("```json\n[]\n```") == "[]\n```"
  {
    EmptyListTexts();
    ParseJsonKeepsClosingFence(["[]"]);
  }

  /** Cut at the closing fence, only the body lines are left (each followed
      by a newline, which JSON parsing ignores). */
  lemma ParseJsonFencedBody(body: seq<string>)
    requires PlainLines(body)
    ensures ParseJsonFenced(Fenced(body)) == Join(body + [""], "\n")
  {
    ParseJsonKeepsClosingFence(body);
    var joined := Join(body + [ClosingFence], "\n");
    var kept := Join(body + [""], "\n");
    if body == [] {
      assert joined == ClosingFence;
      assert FindSub(joined, ClosingFence) == Some(0);
    } else {
      JoinAppend(body, ClosingFence, "\n");
      JoinAppend(body, "", "\n");
      NoBacktickJoin(body);
      assert joined == kept + ClosingFence;
      FenceFoundAtEnd(kept);
    }
  }

  /** In a backtick-free text followed by the closing marker, the marker is
      first found where it was appended. */
  lemma FenceFoundAtEnd(kept: string)
    requires '`' !in kept
    ensures FindSub(kept + ClosingFence, ClosingFence) == Some(|kept|)
  {
    NoFenceBefore(kept);
    FindSubFirst(kept + ClosingFence, ClosingFence, |kept|);
  }

  /** The marker occurs where it was appended to a backtick-free text, and
      nowhere before. */
  lemma NoFenceBefore(kept: string)
    requires '`' !in kept
    ensures OccursAt(kept + ClosingFence, ClosingFence, |kept|)
    ensures forall j: nat :: j < |kept| ==> !OccursAt(kept + ClosingFence, ClosingFence, j)
  {
    var t := kept + ClosingFence;
    assert t[|kept|..] == ClosingFence;
    forall j: nat | j < |kept| ensures !OccursAt(t, ClosingFence, j) {
      assert t[j] == kept[j] != '`';
    }
  }

  lemma {:induction false} NoBacktickJoin(body: seq<string>)
    requires PlainLines(body)
    ensures '`' !in Join(body + [""], "\n")
    decreases |body|
  {
    if |body| == 1 {
      assert Join(body + [""], "\n") == body[0] + "\n" + "";
    } else if |body| > 1 {
      assert (body + [""])[1..] == body[1..] + [""];
      NoBacktickJoin(body[1..]);
    }
  }

  lemma FindSubFirst(t: string, p: string, i: nat)
    requires p != [] && OccursAt(t, p, i)
    requires forall j: nat :: j < i ==> !OccursAt(t, p, j)
    ensures FindSub(t, p) == Some(i)
  {
  }

  /** Both readings agree on answers whose body holds no closing fence and
      that carry no closing line. */
  lemma ParseJsonAgreesWithoutClosingFence(text: string)
    requires FindSub(ParseJson(text), ClosingFence).None?
    ensures ParseJsonFenced(text) == ParseJson(text)
  {
  }

  /** `f"{item['label']}_{i}_mask.png"`. */
  function MaskFileName(name: string, i: nat): (f: string)
    ensures |f| > |name| + 9 && StartsWith(f, name + "_") && f[|f| - 9..] == "_mask.png"
  {
    name + "_" + Decimal(i) + "_mask.png"
  }

  /** `f"{item['label']}_{i}_overlay.png"`. */
  function OverlayFileName(name: string, i: nat): (f: string)
    ensures |f| > |name| + 12 && StartsWith(f, name + "_") && f[|f| - 12..] == "_overlay.png"
  {
    name + "_" + Decimal(i) + "_overlay.png"
  }

  /** The text after the last `c` in `s` (all of `s` when there is none). */
  function SuffixAfter(s: string, c: char): (r: string)
    decreases |s|
  {
    if s == [] then []
    else if s[|s| - 1] == c then []
    else SuffixAfter(s[..|s| - 1], c) + [s[|s| - 1]]
  }

  lemma {:induction false} SuffixAfterLast(x: string, c: char, d: string)
    requires c !in d
    ensures SuffixAfter(x + [c] + d, c) == d
    decreases |d|
  {
    var s := x + [c] + d;
    if d != [] {
      assert s[..|s| - 1] == x + [c] + d[..|d| - 1];
      SuffixAfterLast(x, c, d[..|d| - 1]);
    }
  }

  /** The number after the last underscore determines the index. */
  lemma IndexAfterUnderscore(a: string, m: nat, b: string, n: nat)
    requires a + "_" + Decimal(m) == b + "_" + Decimal(n)
    ensures m == n
  {
    SuffixAfterLast(a, '_', Decimal(m));
    SuffixAfterLast(b, '_', Decimal(n));
    DecimalInjective(m, n);
  }

  /** Items at different list positions never write to the same file,
      whatever their labels, and a mask file is never an overlay file. */
  lemma FileNamesDistinct(a: string, m: nat, b: string, n: nat)
    ensures m != n ==> MaskFileName(a, m) != MaskFileName(b, n)
    ensures m != n ==> OverlayFileName(a, m) != OverlayFileName(b, n)
    ensures MaskFileName(a, m) != OverlayFileName(b, n)
  {
    var u, v := a + "_" + Decimal(m), b + "_" + Decimal(n);
    if MaskFileName(a, m) == MaskFileName(b, n) {
      assert u == MaskFileName(a, m)[..|u|] && v == MaskFileName(b, n)[..|v|];
      IndexAfterUnderscore(a, m, b, n);
    }
    if OverlayFileName(a, m) == OverlayFileName(b, n) {
      assert u == OverlayFileName(a, m)[..|u|] && v == OverlayFileName(b, n)[..|v|];
      IndexAfterUnderscore(a, m, b, n);
    }
    var mask, overlay := MaskFileName(a, m), OverlayFileName(b, n);
    assert mask[|mask| - 5] == 'k' && overlay[|overlay| - 5] == 'y';
  }

  /** One element of the model's JSON list: an object, in which `None` is a
      missing key, or any other JSON value, on which `item["box_2d"]` raises
      TypeError. */
  datatype SegItem =
    | SegItem(box2d: Option<BoxValue>, mask: Option<string>, objectLabel: Option<string>)
    | NonObjectItem

  /** The header every usable mask carries. */
  const PngPrefix: string := "data:image/png;base64,"

  /** What the loop saves for an item: its list position, its pixel box
      (`x1, y1, x2, y2` here are the script's `x0, y0, x1, y1`), the base64
      PNG text and the two file names. */
  datatype SavedItem = SavedItem(index: nat, box: PixelBox, png: string, maskFile: string, overlayFile: string)

  /** How the loop body ends for one item: both files saved, skipped by a
      `continue`, or an exception that ends the whole function. */
  datatype ItemOutcome = Saved(item: SavedItem) | SkippedBox | SkippedMask | Aborted

  /** `box = item["box_2d"]` and the four reads of `box[k] / 1000`. */
  function ItemBox(item: SegItem): (r: BoxRead)
    ensures item.NonObjectItem? ==> r == TypeError
    ensures item.SegItem? && item.box2d.None? ==> r == LookupError
    ensures item.SegItem? && item.box2d.Some? ==> r == ReadValue(item.box2d.value)
  {
    match item
    case NonObjectItem => TypeError
    case SegItem(box2d, _, _) => if box2d.None? then LookupError else ReadValue(box2d.value)
  }

  /** The loop body for item `i` of an image `width` by `height`. The label
      is read after the overlay is painted; as an item without a label
      raises before anything of it is saved, the order does not show. */
  function ItemPlan(i: nat, item: SegItem, width: nat, height: nat): (r: ItemOutcome)
    ensures r.Saved? ==> r.item.index == i && r.item.box.x1 < r.item.box.x2 && r.item.box.y1 < r.item.box.y2
  {
    match ItemBox(item)
    case Read(b) =>
      var p := ToPixelBox(b, width, height);
      if p.y1 >= p.y2 || p.x1 >= p.x2 then SkippedBox
      else if item.mask.None? then Aborted
      else if !StartsWith(item.mask.value, PngPrefix) then SkippedMask
      else if item.objectLabel.None? then Aborted
      else
        var name := item.objectLabel.value;
        Saved(SavedItem(i, p, RemovePrefix(item.mask.value, PngPrefix), MaskFileName(name, i), OverlayFileName(name, i)))
    case _ => Aborted
  }

  /** `box_2d` reads and its pixel box is neither empty nor inverted. */
  predicate PassesBoxChecks(item: SegItem, width: nat, height: nat) {
    ItemBox(item).Read? &&
    var p := ToPixelBox(ItemBox(item).box, width, height);
    p.y1 < p.y2 && p.x1 < p.x2
  }

  /** Which check ends the loop body for an item, and what a saved item
      holds; `r` is the item's outcome. */
  lemma ItemPlanSpec(i: nat, item: SegItem, width: nat, height: nat, r: ItemOutcome)
    requires r == ItemPlan(i, item, width, height)
    // a missing key, a value that is not a list of four numbers, or an
    // element that is not an object ends the function
    ensures !ItemBox(item).Read? ==> r.Aborted?
    // an empty or inverted pixel box is skipped
    ensures r.SkippedBox? <==>
      ItemBox(item).Read? &&
      var p := ToPixelBox(ItemBox(item).box, width, height);
      p.y1 >= p.y2 || p.x1 >= p.x2
    // past the box checks: a missing `mask` key ends the function, a mask
    // without the PNG header is skipped, and a headed mask is saved exactly
    // when the `label` key is present (its absence ends the function)
    ensures PassesBoxChecks(item, width, height) ==>
      && item.SegItem?
      && (item.mask.None? ==> r.Aborted?)
      && (item.mask.Some? && !StartsWith(item.mask.value, PngPrefix) ==> r.SkippedMask?)
      && (item.mask.Some? && StartsWith(item.mask.value, PngPrefix) ==>
            (r.Saved? <==> item.objectLabel.Some?) && (item.objectLabel.None? ==> r.Aborted?))
    ensures r.SkippedMask? <==>
      PassesBoxChecks(item, width, height) && item.SegItem? && item.mask.Some? &&
      !StartsWith(item.mask.value, PngPrefix)
    ensures r.Saved? ==>
      && item.SegItem? && ItemBox(item).Read?
      && r.item.box == ToPixelBox(ItemBox(item).box, width, height)
      && r.item.box.x1 < r.item.box.x2 && r.item.box.y1 < r.item.box.y2
      && item.mask.Some? && PngPrefix + r.item.png == item.mask.value
      && item.objectLabel.Some?
      && r.item.index == i
      && r.item.maskFile == MaskFileName(item.objectLabel.value, i)
      && r.item.overlayFile == OverlayFileName(item.objectLabel.value, i)
  {
  }

  /** The items saved by the loop over the first `n` items, and whether it
      got that far without an exception. */
  function SavedPrefix(items: seq<SegItem>, n: nat, width: nat, height: nat): (r: (seq<SavedItem>, bool))
    requires n <= |items|
    ensures |r.0| <= n
  {
    if n == 0 then ([], true)
    else
      var before := SavedPrefix(items, n - 1, width, height);
      if !before.1 then before
      else match ItemPlan(n - 1, items[n - 1], width, height)
        case Saved(s) => (before.0 + [s], true)
        case Aborted => (before.0, false)
        case _ => before
  }

  /** Saved items come in list order with their list positions (skipped
      items still use up a position), each as its own item plans it, so no
      two of them share a file name. */
  lemma {:induction false} SavedPrefixOrdered(items: seq<SegItem>, n: nat, width: nat, height: nat)
    requires n <= |items|
    ensures var saved := SavedPrefix(items, n, width, height).0;
      && |saved| <= n
      && (forall k :: 0 <= k < |saved| ==>
            saved[k].index < n && ItemPlan(saved[k].index, items[saved[k].index], width, height) == Saved(saved[k]))
      && (forall k, l :: 0 <= k < l < |saved| ==> saved[k].index < saved[l].index)
    decreases n
  {
    if n > 0 {
      SavedPrefixOrdered(items, n - 1, width, height);
    }
  }

  /** The loop gets through the first `n` items exactly when none of them
      raises. */
  lemma {:induction false} SavedPrefixCompleted(items: seq<SegItem>, n: nat, width: nat, height: nat)
    requires n <= |items|
    ensures SavedPrefix(items, n, width, height).1 <==>
      forall k :: 0 <= k < n ==> !ItemPlan(k, items[k], width, height).Aborted?
    decreases n
  {
    if n > 0 {
      SavedPrefixCompleted(items, n - 1, width, height);
    }
  }

  /** Saved items are never taken back: the items saved over a shorter
      prefix begin the items saved over a longer one. */
  lemma {:induction false} SavedPrefixGrows(items: seq<SegItem>, m: nat, n: nat, width: nat, height: nat)
    requires m <= n <= |items|
    ensures SavedPrefix(items, m, width, height).0 <= SavedPrefix(items, n, width, height).0
    decreases n - m
  {
    if m < n {
      SavedPrefixGrows(items, m, n - 1, width, height);
    }
  }

  /** Every item planned to be saved that comes before the first exception
      is saved. */
  lemma SavedPrefixComplete(items: seq<SegItem>, n: nat, width: nat, height: nat, k: nat)
    requires k < n <= |items|
    requires forall j :: 0 <= j <= k ==> !ItemPlan(j, items[j], width, height).Aborted?
    requires ItemPlan(k, items[k], width, height).Saved?
    ensures var saved := SavedPrefix(items, n, width, height).0;
      exists l :: 0 <= l < |saved| && saved[l] == ItemPlan(k, items[k], width, height).item
  {
    var item := ItemPlan(k, items[k], width, height).item;
    SavedPrefixCompleted(items, k, width, height);
    var before := SavedPrefix(items, k, width, height).0;
    assert SavedPrefix(items, k + 1, width, height).0 == before + [item];
    SavedPrefixGrows(items, k + 1, n, width, height);
    assert SavedPrefix(items, n, width, height).0[|before|] == item;
  }

  /** No two saved items write the same file: distinct items have distinct
      mask names and distinct overlay names, and no mask name of any item
      is the overlay name of any item. */
  lemma SavedFilesDistinct(items: seq<SegItem>, width: nat, height: nat)
    ensures var saved := SavedPrefix(items, |items|, width, height).0;
      forall k, l :: 0 <= k < |saved| && 0 <= l < |saved| ==>
        && (k != l ==> saved[k].maskFile != saved[l].maskFile && saved[k].overlayFile != saved[l].overlayFile)
        && saved[k].maskFile != saved[l].overlayFile
  {
    var saved := SavedPrefix(items, |items|, width, height).0;
    SavedPrefixOrdered(items, |items|, width, height);
    forall k, l | 0 <= k < |saved| && 0 <= l < |saved|
      ensures && (k != l ==> saved[k].maskFile != saved[l].maskFile && saved[k].overlayFile != saved[l].overlayFile)
              && saved[k].maskFile != saved[l].overlayFile
    {
      var i, j := saved[k].index, saved[l].index;
      var a, b := items[i].objectLabel.value, items[j].objectLabel.value;
      if k < l || l < k {
        assert i != j;
      }
      FileNamesDistinct(a, i, b, j);
    }
  }

  /** An RGBA pixel. */
  datatype Rgba = Rgba(r: int, g: int, b: int, a: int)

  /** `(0, 0, 0, 0)`, the colour of a new overlay. */
  const Transparent: Rgba := Rgba(0, 0, 0, 0)

  /** `(255, 255, 255, 200)`, the colour of a masked pixel. */
  const MaskColor: Rgba := Rgba(255, 255, 255, 200)

  /** Mask values above this count as inside the object. */
  const MaskThreshold: int := 128

  /** The resized mask has exactly the box's size (rows are y, columns x). */
  predicate MaskFits(mask: array2<int>, box: PixelBox) {
    mask.Length0 == box.y2 - box.y1 && mask.Length1 == box.x2 - box.x1
  }

  /** The overlay pixel at row `y`, column `x` is painted: it lies in the
      box and the mask value under it exceeds the threshold. */
  predicate Painted(box: PixelBox, mask: array2<int>, y: int, x: int)
    requires MaskFits(mask, box)
    reads mask
  {
    box.y1 <= y < box.y2 && box.x1 <= x < box.x2 && mask[y - box.y1, x - box.x1] > MaskThreshold
  }

  /** `Image.new('RGBA', im.size, (0, 0, 0, 0))`: `height` rows of `width`
      pixels. */
  method NewOverlay(width: nat, height: nat) returns (overlay: array2<Rgba>)
    ensures fresh(overlay)
    ensures overlay.Length0 == height && overlay.Length1 == width
    ensures forall y, x :: 0 <= y < height && 0 <= x < width ==> overlay[y, x] == Transparent
  {
    overlay := new Rgba[height, width]((y, x) => Transparent);
  }

  /** The nested `for y` / `for x` loops: a point is drawn where the mask
      exceeds the threshold; points outside the image are clipped, as PIL
      drawing does. Nothing outside the box changes. */
  method PaintOverlay(overlay: array2<Rgba>, mask: array2<int>, box: PixelBox)
    requires MaskFits(mask, box)
    modifies overlay
    ensures forall y, x :: 0 <= y < overlay.Length0 && 0 <= x < overlay.Length1 ==>
      overlay[y, x] == if Painted(box, mask, y, x) then MaskColor else old(overlay[y, x])
  {
    var y := box.y1;
    while y < box.y2
      invariant box.y1 <= y <= box.y2 || (box.y2 < box.y1 && y == box.y1)
      invariant forall r, c :: 0 <= r < overlay.Length0 && 0 <= c < overlay.Length1 ==>
        overlay[r, c] == if r < y && Painted(box, mask, r, c) then MaskColor else old(overlay[r, c])
    {
      var x := box.x1;
      while x < box.x2
        invariant box.x1 <= x <= box.x2
        invariant forall r, c :: 0 <= r < overlay.Length0 && 0 <= c < overlay.Length1 ==>
          overlay[r, c] ==
            if (r < y || (r == y && c < x)) && Painted(box, mask, r, c) then MaskColor else old(overlay[r, c])
      {
        if mask[y - box.y1, x - box.x1] > MaskThreshold {
          if 0 <= y < overlay.Length0 && 0 <= x < overlay.Length1 {
            overlay[y, x] := MaskColor;
          }
        }
        x := x + 1;
      }
      y := y + 1;
    }
  }

  /** After an exception the loop saves nothing more. */
  lemma {:induction false} SavedPrefixStops(items: seq<SegItem>, n: nat, m: nat, width: nat, height: nat)
    requires n <= m <= |items| && !SavedPrefix(items, n, width, height).1
    ensures SavedPrefix(items, m, width, height) == SavedPrefix(items, n, width, height)
    decreases m - n
  {
    if n < m {
      SavedPrefixStops(items, n, m - 1, width, height);
    }
  }

  /** `overlay` is an image-sized buffer showing exactly the painted pixels
      of `mask` over `box` on a transparent background. */
  predicate ShowsMask(overlay: array2<Rgba>, mask: array2<int>, box: PixelBox, width: nat, height: nat)
    reads overlay, mask
  {
    && MaskFits(mask, box)
    && overlay.Length0 == height && overlay.Length1 == width
    && forall y, x :: 0 <= y < height && 0 <= x < width ==>
         overlay[y, x] == if Painted(box, mask, y, x) then MaskColor else Transparent
  }

  /** One item's overlay: a new transparent buffer, then the painting loops. */
  method MaskOverlay(mask: array2<int>, box: PixelBox, width: nat, height: nat) returns (overlay: array2<Rgba>)
    requires MaskFits(mask, box)
    ensures fresh(overlay)
    ensures ShowsMask(overlay, mask, box, width, height)
  {
    overlay := NewOverlay(width, height);
    PaintOverlay(overlay, mask, box);
  }


  /** Each overlay shows the mask of the saved item at its position. */
  predicate OverlaysShow(overlays: seq<array2<Rgba>>, saved: seq<SavedItem>, masks: seq<array2<int>>, width: nat, height: nat)
    reads set k | 0 <= k < |overlays| :: overlays[k]
    reads set k | 0 <= k < |masks| :: masks[k]
  {
    && |overlays| == |saved|
    && forall k :: 0 <= k < |overlays| ==>
         saved[k].index < |masks| && ShowsMask(overlays[k], masks[saved[k].index], saved[k].box, width, height)
  }

  lemma OverlaysShowAppend(overlays: seq<array2<Rgba>>, saved: seq<SavedItem>, masks: seq<array2<int>>,
                           width: nat, height: nat, overlay: array2<Rgba>, item: SavedItem)
    requires OverlaysShow(overlays, saved, masks, width, height)
    requires item.index < |masks| && ShowsMask(overlay, masks[item.index], item.box, width, height)
    ensures OverlaysShow(overlays + [overlay], saved + [item], masks, width, height)
  {
    var os, ss := overlays + [overlay], saved + [item];
    forall k | 0 <= k < |os|
      ensures ss[k].index < |masks| && ShowsMask(os[k], masks[ss[k].index], ss[k].box, width, height)
    {
      if k < |overlays| {
        assert os[k] == overlays[k] && ss[k] == saved[k];
      }
    }
  }

  /** `extract_segmentation_masks` from the parsed item list on: for each
      saved item its overlay, a fresh image-sized buffer painted from the
      item's resized mask (`masks[i]` for item `i`). `completed` is false
      when an exception ended the loop early. */
  method ExtractSegmentationMasks(items: seq<SegItem>, width: nat, height: nat, masks: seq<array2<int>>)
    returns (saved: seq<SavedItem>, overlays: seq<array2<Rgba>>, completed: bool)
    requires |masks| == |items|
    // PIL's resize gives each mask its box's size
    requires forall k :: 0 <= k < |items| && ItemPlan(k, items[k], width, height).Saved? ==>
      MaskFits(masks[k], ItemPlan(k, items[k], width, height).item.box)
    ensures (saved, completed) == SavedPrefix(items, |items|, width, height)
    ensures forall k :: 0 <= k < |saved| ==>
      saved[k].index < |items| && ItemPlan(saved[k].index, items[saved[k].index], width, height) == Saved(saved[k])
    ensures |overlays| == |saved|
    ensures forall k :: 0 <= k < |overlays| ==> fresh(overlays[k])
    // a pixel of an overlay is painted exactly when its item's mask says so
    ensures OverlaysShow(overlays, saved, masks, width, height)
  {
    saved, overlays, completed := [], [], true;
    var i := 0;
    while i < |items|
      invariant 0 <= i <= |items|
      invariant (saved, true) == SavedPrefix(items, i, width, height)
      invariant |overlays| == |saved|
      invariant forall k :: 0 <= k < |saved| ==> saved[k].index < i
      invariant forall k :: 0 <= k < |overlays| ==> fresh(overlays[k])
      invariant OverlaysShow(overlays, saved, masks, width, height)
    {
      var outcome := ItemPlan(i, items[i], width, height);
      if outcome.Aborted? {
        completed := false;
        SavedPrefixStops(items, i + 1, |items|, width, height);
        break;
      }
      if outcome.Saved? {
        var overlay := MaskOverlay(masks[i], outcome.item.box, width, height);
        OverlaysShowAppend(overlays, saved, masks, width, height, overlay, outcome.item);
        saved := saved + [outcome.item];
        overlays := overlays + [overlay];
      }
      i := i + 1;
    }
    SavedPrefixOrdered(items, |items|, width, height);
  }
}
