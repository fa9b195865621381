/**
 * One annotation session on one image: the square selection that follows the
 * mouse, its size rule on wheel events, and the saving of labelled patches to
 * the run's output folder.
 */
module Patching {
  import opened Wrappers
  import opened Naming

  const INITIAL_RECT_SIZE := 100
  const MOUSEWHEEL_BOXSIZE_STEP := 4
  const PATCH_SIZE := 150

  // OpenCV's mouse event codes and the Ctrl modifier bit, as the callback receives them.
  const EVENT_LBUTTONUP := 4
  const EVENT_RBUTTONUP := 5
  const EVENT_MOUSEWHEEL := 10
  const EVENT_FLAG_CTRLKEY := 8

  /** The arguments `(event, x, y, flags)` of one mouse callback. */
  datatype MouseEvent = MouseEvent(code: int, x: int, y: int, flags: int)

  /** An input image as read from disk: its file name and pixel dimensions. */
  datatype InputImage = InputImage(name: string, height: nat, width: nat)

  /** A BGR colour triple. */
  datatype Colour = Colour(b: int, g: int, r: int)

  const BB_COLOR_IF_CAR_IS_PRESENT := Colour(66, 128, 66)
  const BB_COLOR_IF_CAR_IS_ABSENT := Colour(66, 66, 128)

  /** A rectangle drawn for good on the display canvas, from (x, y) to (x + size, y + size). */
  datatype Box = Box(x: int, y: int, size: int, colour: Colour)

  /** The slice `img[rowStart:rowEnd, colStart:colEnd]` a patch is cut from, as requested. */
  datatype Window = Window(rowStart: int, rowEnd: int, colStart: int, colEnd: int)

  /**
   * One `cv2.imwrite` of a patch: the label, stem and index its name is made
   * from, the crop window, the outlines drawn on the buffer the crop was cut
   * from (none for the pristine image, the canvas's boxes for `img_canvas`),
   * and the side of the square it was resized to.
   */
  datatype PatchFile = PatchFile(lab: Label, stem: string, index: nat, crop: Window, drawn: seq<Box>, side: nat) {
    function Name(): string {
      PatchFileName(lab, stem, index)
    }
  }

  /**
   * The Ctrl bit (8) of the event flags is set, reading a negative value in
   * two's complement as Python's bitwise and does.
   */
  predicate CtrlHeld(flags: int): (held: bool)
    ensures held <==> flags % 16 >= EVENT_FLAG_CTRLKEY
  {
    (flags / EVENT_FLAG_CTRLKEY) % 2 == 1
  }

  /** The label a mouse event saves a patch under, if it saves one at all. */
  function SaveLabel(e: MouseEvent): (r: Option<Label>)
    ensures r == Some(Present) <==> e.code == EVENT_LBUTTONUP && !CtrlHeld(e.flags)
    ensures r == Some(Absent) <==> e.code == EVENT_RBUTTONUP
    ensures r == None <==> e.code != EVENT_RBUTTONUP && (e.code != EVENT_LBUTTONUP || CtrlHeld(e.flags))
  {
    if e.code == EVENT_LBUTTONUP && !CtrlHeld(e.flags) then Some(Present)
    else if e.code == EVENT_RBUTTONUP then Some(Absent)
    else None
  }

  function MinSide(height: nat, width: nat): nat {
    if height <= width then height else width
  }

  /** The rectangle size after one event, by the wheel rule of `event_dispatcher`. */
  function NextSize(size: int, height: nat, width: nat, e: MouseEvent): (r: int)
    ensures r == size + MOUSEWHEEL_BOXSIZE_STEP <==>
      e.code == EVENT_MOUSEWHEEL && e.flags > 0 && size < MinSide(height, width) - MOUSEWHEEL_BOXSIZE_STEP
    ensures r == size - MOUSEWHEEL_BOXSIZE_STEP <==>
      e.code == EVENT_MOUSEWHEEL && e.flags <= 0 && size > MOUSEWHEEL_BOXSIZE_STEP * 2
    ensures r == size || r == size + MOUSEWHEEL_BOXSIZE_STEP || r == size - MOUSEWHEEL_BOXSIZE_STEP
  {
    if e.code != EVENT_MOUSEWHEEL then size
    else if e.flags > 0 then
      if size < MinSide(height, width) - MOUSEWHEEL_BOXSIZE_STEP then size + MOUSEWHEEL_BOXSIZE_STEP else size
    else
      if size > MOUSEWHEEL_BOXSIZE_STEP * 2 then size - MOUSEWHEEL_BOXSIZE_STEP else size
  }

  /**
   * The sizes reachable from the initial 100: multiples of the step, at least
   * twice the step, and below the shorter image side unless the start already
   * was not.
   */
  predicate SizeOk(size: int, height: nat, width: nat) {
    && size % MOUSEWHEEL_BOXSIZE_STEP == 0
    && size >= 2 * MOUSEWHEEL_BOXSIZE_STEP
    && (size < MinSide(height, width) || size <= INITIAL_RECT_SIZE)
  }

  lemma InitialSizeOk(height: nat, width: nat)
    ensures SizeOk(INITIAL_RECT_SIZE, height, width)
  {
  }

  /** No event takes the size out of the reachable range. */
  lemma NextSizeKeepsSizeOk(size: int, height: nat, width: nat, e: MouseEvent)
    requires SizeOk(size, height, width)
    ensures SizeOk(NextSize(size, height, width, e), height, width)
  {
  }

  /** Scrolling never brings a size below the shorter side up to it or past it. */
  lemma NextSizeStaysBelowMinSide(size: int, height: nat, width: nat, e: MouseEvent)
    requires size < MinSide(height, width)
    ensures NextSize(size, height, width, e) < MinSide(height, width)
  {
  }

  /** The size after a whole sequence of events. */
  function SizeAfter(size: int, height: nat, width: nat, events: seq<MouseEvent>): int
    decreases |events|
  {
    if events == [] then size
    else SizeAfter(NextSize(size, height, width, events[0]), height, width, events[1..])
  }

  /**
   * For every sequence of events the size stays a multiple of 4, at least 8,
   * and at most `min(height, width) - 1` once it started below that side.
   */
  lemma {:induction false} SizeAfterOk(size: int, height: nat, width: nat, events: seq<MouseEvent>)
    requires SizeOk(size, height, width)
    ensures SizeOk(SizeAfter(size, height, width, events), height, width)
    ensures size < MinSide(height, width) ==> SizeAfter(size, height, width, events) < MinSide(height, width)
    decreases |events|
  {
    if events != [] {
      var next := NextSize(size, height, width, events[0]);
      NextSizeKeepsSizeOk(size, height, width, events[0]);
      SizeAfterOk(next, height, width, events[1..]);
    }
  }

  /** A wheel-up event at the origin. */
  const WHEEL_UP := MouseEvent(EVENT_MOUSEWHEEL, 0, 0, 1)

  /** `n` wheel-up events in a row. */
  function ScrollUps(n: nat): seq<MouseEvent> {
    seq(n, _ => WHEEL_UP)
  }

  /**
   * The upper bound is reached: when the shorter side is one more than a
   * multiple of 4, scrolling up from any smaller multiple of 4 ends at
   * exactly `min(height, width) - 1`, not at `min(height, width) - 4`.
   */
  lemma {:induction false} ScrollUpReachesMinSideLessOne(size: int, height: nat, width: nat)
    requires size % MOUSEWHEEL_BOXSIZE_STEP == 0 && size >= 0
    requires MinSide(height, width) % MOUSEWHEEL_BOXSIZE_STEP == 1
    requires size <= MinSide(height, width) - 1
    ensures SizeAfter(size, height, width, ScrollUps((MinSide(height, width) - 1 - size) / MOUSEWHEEL_BOXSIZE_STEP))
         == MinSide(height, width) - 1
    decreases MinSide(height, width) - size
  {
    var n := (MinSide(height, width) - 1 - size) / MOUSEWHEEL_BOXSIZE_STEP;
    if n > 0 {
      var events := ScrollUps(n);
      assert events[0] == WHEEL_UP;
      assert events[1..] == ScrollUps(n - 1);
      assert NextSize(size, height, width, WHEEL_UP) == size + MOUSEWHEEL_BOXSIZE_STEP;
      ScrollUpReachesMinSideLessOne(size + MOUSEWHEEL_BOXSIZE_STEP, height, width);
    }
  }

  /** The requested crop window for a rectangle at (x, y) of the given size: rows first. */
  function CropWindow(x: int, y: int, size: int): (w: Window)
    ensures w.rowEnd - w.rowStart == size && w.colEnd - w.colStart == size
    ensures w.rowStart == y && w.colStart == x
  {
    Window(y, y + size, x, x + size)
  }

  /**
   * The patch a mouse event writes in a session with the given stem, index
   * and rectangle size: one crop of the pristine image at the event's own
   * coordinates for a saving event, nothing for any other.
   */
  function SavedBy(e: MouseEvent, stem: string, index: nat, size: int): (r: seq<PatchFile>)
    ensures |r| == (if SaveLabel(e).Some? then 1 else 0)
    ensures |r| == 1 ==> r[0].lab == SaveLabel(e).value && r[0].stem == stem && r[0].index == index
  {
    if SaveLabel(e).Some? then [PatchFile(SaveLabel(e).value, stem, index, CropWindow(e.x, e.y, size), [], PATCH_SIZE)]
    else []
  }

  /** The outline colour of a committed patch on the canvas, keyed by its flag. */
  function CommitColour(lab: Label): (c: Colour)
    ensures c == BB_COLOR_IF_CAR_IS_ABSENT <==> lab == Absent
  {
    if Flag(lab) == "0" then BB_COLOR_IF_CAR_IS_ABSENT else BB_COLOR_IF_CAR_IS_PRESENT
  }

  /** The manifest lines, one per written patch: its file name, a space, its flag. */
  ghost predicate Describes(files: seq<PatchFile>, manifest: seq<string>) {
    && |manifest| == |files|
    && forall i :: 0 <= i < |files| ==>
         manifest[i] == files[i].Name() + " " + Flag(files[i].lab) + "\n"
  }

  lemma DescribesSnoc(files: seq<PatchFile>, manifest: seq<string>, f: PatchFile)
    requires Describes(files, manifest)
    ensures Describes(files + [f], manifest + [ManifestLine(f.lab, f.stem, f.index)])
  {
    ManifestLineNamesFile(f.lab, f.stem, f.index);
  }

  /** The k-th patch of a session on `stem` and the k-th canvas rectangle agree. */
  ghost predicate Committed(f: PatchFile, k: nat, b: Box, stem: string) {
    && f.stem == stem && f.index == k && f.side == PATCH_SIZE
    && b.colour == CommitColour(f.lab)
    && f.crop == CropWindow(b.x, b.y, b.size) && f.drawn == []
  }

  /**
   * The files from position `first` on are the session's patches, one per
   * canvas rectangle, numbered from 0.
   */
  ghost predicate SessionLog(files: seq<PatchFile>, first: nat, canvas: seq<Box>, stem: string) {
    && |files| == first + |canvas|
    && forall k :: 0 <= k < |canvas| ==> Committed(files[first + k], k, canvas[k], stem)
  }

  lemma SessionLogSnoc(files: seq<PatchFile>, first: nat, canvas: seq<Box>, stem: string, f: PatchFile, b: Box)
    requires SessionLog(files, first, canvas, stem) && Committed(f, |canvas|, b, stem)
    ensures SessionLog(files + [f], first, canvas + [b], stem)
  {
  }

  /**
   * The run's output subfolder: the patch images written into it, in order,
   * and the lines of its `description.txt` manifest, in order.
   */
  class Output {
    const subfolder: string
    var files: seq<PatchFile>
    var manifest: seq<string>

    /** Each manifest line names the patch written just before it, then its flag. */
    ghost predicate Valid()
      reads this
    {
      Describes(files, manifest)
    }

    constructor (subfolder: string)
      ensures Valid() && this.subfolder == subfolder
      ensures files == [] && manifest == []
    {
      this.subfolder := subfolder;
      files := [];
      manifest := [];
    }

    /** `cv2.imwrite` of a patch into the subfolder. */
    method WritePatch(f: PatchFile)
      modifies this
      ensures files == old(files) + [f] && manifest == old(manifest)
    {
      files := files + [f];
    }

    /** One append to `description.txt`. */
    method AppendLine(line: string)
      modifies this
      ensures manifest == old(manifest) + [line] && files == old(files)
    {
      manifest := manifest + [line];
    }
  }

  /** The interaction state of one displayed image. */
  class Patcher {
    var patchIndex: nat
    var rectPosX: int
    var rectPosY: int
    var rectSize: int
    const imgHeight: nat
    const imgWidth: nat
    /** The pristine image; never written to, the only source of crops. */
    const img: InputImage
    /** The rectangles drawn for good on `img_canvas`, oldest first. */
    var canvas: seq<Box>
    const stem: string
    const out: Output
    /** How many patches the run had written when this session began. */
    ghost const first: nat

    ghost predicate Valid()
      reads this, out
    {
      && out.Valid()
      && imgHeight == img.height && imgWidth == img.width
      && SizeOk(rectSize, imgHeight, imgWidth)
      && |canvas| == patchIndex
      && SessionLog(out.files, first, canvas, stem)
    }

    /** The state `Patcher.__init__` leaves: index 0, at the origin, size 100, nothing drawn. */
    ghost predicate Initial()
      reads this
    {
      patchIndex == 0 && rectPosX == 0 && rectPosY == 0 && rectSize == INITIAL_RECT_SIZE && canvas == []
    }

    /** `Patcher.__init__` for an image whose name has exactly one dot. */
    constructor (img: InputImage, out: Output)
      requires out.Valid()
      requires Stem(img.name).Success?
      ensures Valid()
      ensures this.img == img && this.out == out && first == |out.files|
      ensures imgHeight == img.height && imgWidth == img.width
      ensures stem == Stem(img.name).value
      ensures patchIndex == 0 && rectPosX == 0 && rectPosY == 0 && rectSize == INITIAL_RECT_SIZE
      ensures canvas == []
    {
      patchIndex := 0;
      rectPosX := 0;
      rectPosY := 0;
      rectSize := INITIAL_RECT_SIZE;
      imgHeight := img.height;
      imgWidth := img.width;
      this.img := img;
      canvas := [];
      stem := Stem(img.name).value;
      this.out := out;
      first := |out.files|;
    }

    /**
     * `save_patch`: outline the rectangle on the canvas, write the crop of the
     * pristine image under the current index, describe it in the manifest,
     * then move to the next index.
     */
    method SavePatch(lab: Label)
      requires Valid()
      modifies this, out
      ensures Valid()
      ensures patchIndex == old(patchIndex) + 1
      ensures canvas == old(canvas) + [Box(rectPosX, rectPosY, rectSize, CommitColour(lab))]
      ensures out.files == old(out.files)
        + [PatchFile(lab, stem, old(patchIndex), CropWindow(rectPosX, rectPosY, rectSize), [], PATCH_SIZE)]
      ensures out.manifest == old(out.manifest) + [ManifestLine(lab, stem, old(patchIndex))]
      ensures rectPosX == old(rectPosX) && rectPosY == old(rectPosY) && rectSize == old(rectSize)
    {
      var colour := if Flag(lab) == "0" then BB_COLOR_IF_CAR_IS_ABSENT else BB_COLOR_IF_CAR_IS_PRESENT;
      canvas := canvas + [Box(rectPosX, rectPosY, rectSize, colour)];
      var crop := Window(rectPosY, rectPosY + rectSize, rectPosX, rectPosX + rectSize);
      // Cut from `img`, which carries no outlines, not from the canvas just drawn on.
      var f := PatchFile(lab, stem, patchIndex, crop, [], PATCH_SIZE);
      DescribesSnoc(out.files, out.manifest, f);
      SessionLogSnoc(out.files, first, old(canvas), stem, f, canvas[|canvas| - 1]);
      out.WritePatch(f);
      SaveTxtDescription(lab);
      patchIndex := patchIndex + 1;
    }

    /** `save_txt_description`: append the manifest line for the current index. */
    method SaveTxtDescription(lab: Label)
      modifies out
      ensures out.manifest == old(out.manifest) + [ManifestLine(lab, stem, patchIndex)]
      ensures out.files == old(out.files)
    {
      out.AppendLine(ManifestLine(lab, stem, patchIndex));
    }

    /**
     * `event_dispatcher`: the rectangle jumps to the event position, a left
     * release without Ctrl saves a "present" patch, a right release saves an
     * "absent" patch, and a wheel event resizes by the step within bounds.
     */
    method EventDispatcher(e: MouseEvent)
      requires Valid()
      modifies this, out
      ensures Valid()
      ensures rectPosX == e.x && rectPosY == e.y
      ensures rectSize == NextSize(old(rectSize), imgHeight, imgWidth, e)
      ensures SaveLabel(e).Some? ==>
        var lab := SaveLabel(e).value;
        && patchIndex == old(patchIndex) + 1
        && canvas == old(canvas) + [Box(e.x, e.y, old(rectSize), CommitColour(lab))]
        && out.files == old(out.files)
             + [PatchFile(lab, stem, old(patchIndex), CropWindow(e.x, e.y, old(rectSize)), [], PATCH_SIZE)]
        && out.manifest == old(out.manifest) + [ManifestLine(lab, stem, old(patchIndex))]
      ensures SaveLabel(e).None? ==>
        && patchIndex == old(patchIndex) && canvas == old(canvas)
        && out.files == old(out.files) && out.manifest == old(out.manifest)
    {
      rectPosX := e.x;
      rectPosY := e.y;
      if e.code == EVENT_LBUTTONUP && !CtrlHeld(e.flags) {
        SavePatch(Present);
      }
      if e.code == EVENT_RBUTTONUP {
        SavePatch(Absent);
      }
      if e.code == EVENT_MOUSEWHEEL {
        if e.flags > 0 {
          if rectSize < MinSide(imgHeight, imgWidth) - MOUSEWHEEL_BOXSIZE_STEP {
            rectSize := rectSize + MOUSEWHEEL_BOXSIZE_STEP;
          }
        } else {
          if rectSize > MOUSEWHEEL_BOXSIZE_STEP * 2 {
            rectSize := rectSize - MOUSEWHEEL_BOXSIZE_STEP;
          }
        }
      }
    }
  }

  /**
   * The patches one session writes have pairwise different file names,
   * whatever labels they carry.
   */
  lemma SessionFileNamesDistinct(files: seq<PatchFile>, stem: string)
    requires forall k :: 0 <= k < |files| ==> files[k].stem == stem && files[k].index == k
    ensures forall i, j :: 0 <= i < j < |files| ==> files[i].Name() != files[j].Name()
  {
    forall i, j | 0 <= i < j < |files|
      ensures files[i].Name() != files[j].Name()
    {
      DistinctIndicesDistinctNames(files[i].lab, files[j].lab, stem, i, j);
    }
  }

  /**
   * The patches a valid session has written so far, the last `patchIndex`
   * files of the run, have pairwise different file names.
   */
  lemma SessionNamesDistinct(p: Patcher)
    requires p.Valid()
    ensures |p.out.files| == p.first + p.patchIndex
    ensures forall i, j :: p.first <= i < j < |p.out.files| ==> p.out.files[i].Name() != p.out.files[j].Name()
  {
    var session := p.out.files[p.first..];
    forall k | 0 <= k < |session|
      ensures session[k].stem == p.stem && session[k].index == k
    {
      assert Committed(p.out.files[p.first + k], k, p.canvas[k], p.stem);
    }
    SessionFileNamesDistinct(session, p.stem);
    forall i, j | p.first <= i < j < |p.out.files|
      ensures p.out.files[i].Name() != p.out.files[j].Name()
    {
      assert p.out.files[i] == session[i - p.first] && p.out.files[j] == session[j - p.first];
    }
  }

  /** The stem of `car.png` is `car`. */
  lemma ExampleStem()
    ensures Stem("car.png") == Success("car")
  {
    assert Count("car.png", '.') == 1 by {
      assert Count("png", '.') == 0 by {
        assert "png"[1..] == "ng" && "ng"[1..] == "g" && "g"[1..] == "";
      }
      assert "car.png"[1..] == "ar.png" && "ar.png"[1..] == "r.png" && "r.png"[1..] == ".png";
      assert ".png"[1..] == "png";
    }
    var v := Stem("car.png").value;
    assert |v| == 3;
    assert v == "car.png"[..3] == "car";
  }

  /** Patch 0 of `car.png` labelled present is `1_car_patch0.jpg`, described as `1_car_patch0.jpg 1`. */
  lemma ExampleNames()
    ensures PatchFileName(Present, "car", 0) == "1_car_patch0.jpg"
    ensures ManifestLine(Present, "car", 0) == "1_car_patch0.jpg 1\n"
  {
  }

  /** Five wheel-ups on a 500 by 500 image take the size from 100 to 120. */
  lemma ExampleScroll()
    ensures SizeAfter(INITIAL_RECT_SIZE, 500, 500, ScrollUps(5)) == 120
  {
  }
}
