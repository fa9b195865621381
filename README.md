# PatchMarker patcher, modelled in Dafny

PatchMarker's `patcher.py` is an interactive labelling tool. It shows the images of an
input folder one at a time. A square selection follows the mouse, and the mouse wheel
resizes it. A left-button release saves the selected region as a "car present" patch
(flag `1`). A right-button release saves it as a "car absent" patch (flag `0`). Each save
writes a patch image and appends a line to a `description.txt` manifest in the run's output
subfolder. Space moves on to the next image, or ends the run after the last one. Esc ends
the run at any point.

The model has four modules:

- `Wrappers` (`wrappers.dfy`): `Option` and `Result`.
- `Naming` (`naming.dfy`): the label flag, the decimal patch index, the stem rule
  (Python's `str.split('.')` unpacked into two names), the patch file name
  `{flag}_{stem}_patch{index}.jpg` and the manifest line `"{name} {flag}\n"`.
- `Patching` (`patching.dfy`):
  - raw mouse events `(code, x, y, flags)` and the Ctrl bit;
  - the wheel size rule with its reachable-size invariant;
  - the crop window;
  - class `Output`: the run's subfolder, as the ordered log of patch writes and of
    manifest lines;
  - class `Patcher`: one image's session, whose methods update its fields in place as
    `event_dispatcher`, `save_patch` and `save_txt_description` do.
- `Driver` (`driver.dfy`): the top-level `while` loop.
  - A pure key-driven state machine over the list of names, popped from the end. Its
    states are showing an image, done, or crashed on a badly named image.
  - A pure replay of a whole script of keys and mouse events. It carries the driver state,
    the current session's stem, index, position and size, and the patch files written.
  - An imperative `Run` that works through such a script. It pops the list, opens a
    `Patcher` per image and sends each mouse event to the current one. `Run` is proved
    against the state machine and the replay.

Three facts about the code that are easy to misread:

- The upper size bound. The grow guard `rect_size < min(h, w) - 4` keeps the size below
  `min(h, w)`, so it can reach `min(h, w) - 1`, not only `min(h, w) - 4`.
  `Patching.ScrollUpReachesMinSideLessOne` shows that `min(h, w) - 1` is reached. The
  initial 100 is also kept on images whose shorter side is 100 or less.
- The index in the file name and in the manifest line. The manifest line is written before
  the increment, so it carries the index of the file just written.
  `Patching.Patcher.SavePatch` and `Naming.ManifestLineNamesFile` state this.
- The crop size. The crop is `rect_size` by `rect_size` at the moment of the click. After
  five wheel-ups from 100 it is 120 by 120, not 100 by 100.
  `Patching.ExampleScroll` and `Patching.Patcher.EventDispatcher` state this.

## Model

| member | source | states |
|---|---|---|
| `Naming.Flag` | patcher.py:80-89 | The flag is one character. It is `0` exactly for an "absent" patch and `1` exactly for a "present" one. |
| `Naming.Decimal` | patcher.py:60-61 | The index prints as a non-empty run of digits with no leading zero. |
| `Naming.ParseDecimalInverse` | patcher.py:60-61 | Reading the printed index back gives the index: printing is invertible. |
| `Naming.DecimalInjective` | patcher.py:60-61 | Different indices never print the same. |
| `Naming.Split` | patcher.py:27 | Python's `split`: one part more than there are separators, no part holds a separator, and joining the parts gives the name back. |
| `Naming.Stem` | patcher.py:27 | The stem exists exactly when the name has one dot. It is then the text before that dot, and neither side holds another dot. Any other name fails with the number of parts. |
| `Naming.ManifestLineNamesFile` | patcher.py:60-68 | The manifest line is the file name just written, a space, the flag and a newline, with the same index. |
| `Naming.PatchFileName` | patcher.py:60-61 | The name starts with the flag and `_`, then the stem; it ends in `.jpg`; its length is the stem's and the index's digits plus 12. `PatchFileNameInjective` shows it determines label and index. |
| `Naming.ManifestLine` | patcher.py:67-68 | The line ends in a space, the flag and a newline, starts with the flag and `_`, and holds no other newline when the stem has none. `ManifestLineNamesFile` ties it to the file name. |
| `Naming.PatchFileNameInjective` | patcher.py:60-61 | For one stem, the file name determines both the flag and the index. |
| `Naming.DistinctIndicesDistinctNames` | patcher.py:60-63 | Two patches of one image with different indices have different file names, whatever their labels. |
| `Patching.SaveLabel` | patcher.py:76-93 | Only two events save. A left release without Ctrl saves "present" and a right release saves "absent". Button presses, Ctrl+left, wheel and moves save nothing. |
| `Patching.CtrlHeld` | patcher.py:76-92 | The Ctrl test `flags & 8`: the bit is set exactly when `flags` mod 16 is at least 8, which holds for negative flags read in two's complement too. |
| `Patching.NextSize` | patcher.py:96-105 | A wheel event with positive flags grows the size by 4 exactly when size < min(h, w) - 4. Any other wheel event shrinks it by 4 exactly when size > 8. Every other event leaves it unchanged. |
| `Patching.InitialSizeOk` | patcher.py:22 | The initial size 100 is in the reachable range. |
| `Patching.NextSizeKeepsSizeOk` | patcher.py:96-105 | No event takes the size out of the range: a multiple of 4, at least 8, and below min(h, w) unless it is at most 100. |
| `Patching.NextSizeStaysBelowMinSide` | patcher.py:100-101 | Scrolling never takes a size below min(h, w) up to or past it. |
| `Patching.SizeAfterOk` | patcher.py:96-105 | The size stays in the range after any sequence of events, and below min(h, w) if it started there. |
| `Patching.ScrollUpReachesMinSideLessOne` | patcher.py:98-101 | When min(h, w) is one more than a multiple of 4, scrolling up reaches exactly min(h, w) - 1, so the guard's bound is min(h, w) - 1 and not min(h, w) - 4. |
| `Patching.CropWindow` | patcher.py:57-58 | The crop covers rows [y, y + size) and columns [x, x + size). |
| `Patching.SavedBy` | patcher.py:76-93 | A mouse event writes exactly one patch when `SaveLabel` gives a label and none otherwise, carrying that label, the session's stem and the current index. `Patcher.EventDispatcher` and `Driver.Step` append exactly this. |
| `Patching.CommitColour` | patcher.py:50-56 | The committed outline takes the "absent" colour exactly for flag `0`. |
| `Patching.Output.constructor` | patcher.py:116-118 | A new run subfolder holds no patches and an empty manifest. |
| `Patching.Output.WritePatch` | patcher.py:60-61 | Writing a patch appends it to the files and leaves the manifest unchanged. |
| `Patching.Output.AppendLine` | patcher.py:66-68 | Appending to the manifest adds one line and leaves the files unchanged. |
| `Patching.Patcher.constructor` | patcher.py:18-28 | A new session has index 0, position (0, 0), size 100 and an empty canvas. It records the image dimensions and stem and establishes the session invariant. |
| `Patching.Patcher.SavePatch` | patcher.py:49-63 | A save appends the outline to the canvas and writes the crop of the current rectangle under the current index. The crop is cut from the pristine image: the written file carries no outlines, where a crop of the canvas would carry the one just drawn. It appends the matching manifest line, raises the index by exactly one and keeps position and size. |
| `Patching.Patcher.SaveTxtDescription` | patcher.py:65-68 | Appends the manifest line for the current, not yet incremented, index and writes no file. |
| `Patching.Patcher.EventDispatcher` | patcher.py:70-105 | Every event moves the rectangle to exactly (x, y). The size follows `NextSize`. A saving event commits a patch of the pristine image at the event's own coordinates with the pre-event size. Any other event leaves the index, canvas, files and manifest unchanged. |
| `Patching.SessionFileNamesDistinct` | patcher.py:60-63 | The files a session writes, numbered 0, 1, 2, … under one stem, have pairwise distinct names. |
| `Patching.SessionNamesDistinct` | patcher.py:60-63 | In a valid session, the files it has written are the last `patchIndex` files of the run, and their names are pairwise distinct. |
| `Patching.ExampleStem` | patcher.py:27 | The stem of `car.png` is `car`. |
| `Patching.ExampleNames` | patcher.py:60-68 | Patch 0 of `car` labelled present is `1_car_patch0.jpg`, described as `1_car_patch0.jpg 1`. |
| `Patching.ExampleScroll` | patcher.py:96-101 | Five wheel-ups on a 500 by 500 image take the size from 100 to 120. |
| `Driver.Pop` | patcher.py:131-133 | Takes exactly the last remaining name and appends it to the popped names. The phase shows that image exactly when its name has one dot, and is the crash on that name otherwise. `PopKeepsConsistent` keeps the listing agreement. |
| `Driver.Start` | patcher.py:120-125 | The remaining and popped names together are the listing. One name is popped exactly when the listing is non-empty, and a shown image is the last one listed. |
| `Driver.OnKey` | patcher.py:128-137 | A key never re-enters the loop, pops at most one name, and keeps popped and remaining names together equal to what they were. `OnKeyRules` gives each key's effect. |
| `Driver.Drive` | patcher.py:127-137 | After any keys, the loop is never re-entered, the earlier popped names stay a prefix, and at most one name is popped per key. `DriveKeepsConsistent`, `DriveAfterExit` and `EscapeStops` state the rest. |
| `Driver.PopKeepsConsistent` | patcher.py:130-133 | Popping keeps the state in step with the listing: the rest is a prefix, the popped names are the remainder reversed, and a shown image is the last one popped. |
| `Driver.OnKeyKeepsConsistent` | patcher.py:128-137 | No key breaks that agreement. |
| `Driver.DriveKeepsConsistent` | patcher.py:127-137 | No sequence of keys breaks that agreement. |
| `Driver.PoppedInReverseOrder` | patcher.py:120-133 | For any keys, the k-th image shown is the k-th from the end of the listing. Each image is shown at most once, and the images not yet shown are the untouched front of the list. |
| `Driver.DriveAfterExit` | patcher.py:134-137 | Once the loop has been left, no key changes anything. |
| `Driver.EscapeStops` | patcher.py:136-137 | Esc ends the run whenever it comes, whatever keys come before or after it. |
| `Driver.OnKeyRules` | patcher.py:128-137 | While an image is shown, Space with an empty list ends the run, and Space otherwise pops the last remaining name. Esc ends the run, and any other key leaves the state unchanged. |
| `Driver.OpenSession` | patcher.py:131-133 | Takes the last name off the list. When the name has one dot, it opens a fresh valid session on that image in the initial state: index 0, position (0, 0), size 100, nothing drawn. Otherwise it stops with the exception. |
| `Driver.PressSpace` | patcher.py:129-135 | Space in the loop does what the state machine's Space transition does. A new session is fresh, valid and in the initial state (index 0, position (0, 0), size 100, nothing drawn). It is on exactly the image now shown and has that image's stem. |
| `Driver.Step` | patcher.py:127-137 | One loop pass. A key follows the state machine and touches neither the session nor the output. Every key but Space keeps the same session. A Space that shows a new image gives a fresh session in the initial state. A mouse event leaves the driver state alone and goes to the session: the rectangle moves to the event, the size follows `NextSize`, and exactly the patch and manifest line the event saves, if any, are appended. |
| `Driver.Run` | patcher.py:120-138 | The final state is the state machine's result on the script's keys. Every consumed input was read while an image was still shown, and consumption stops at the first input after the loop is left, so clicks after Esc write nothing. The files written are exactly the replay's files (`ReplayAll`): each patch's label, stem, index and crop window are those of the session on the image shown at the click, at that session's index and size. Their number is the number of consumed saving releases, and the manifest matches the files line for line. |
| `Driver.ReplayState` | patcher.py:120-137 | The run replayed input by input (`ReplayAll`: Space opens a new session on the popped image, mouse events feed the current one) has the driver state the key-driven state machine gives, whatever mouse events come between the keys. |
| `Driver.ReplayFrozen` | patcher.py:134-137 | Once the replayed loop is left, no later input changes the state, the session or the files. |
| `Driver.ExampleReplay` | patcher.py:70-81 | One left release at (10, 20) on a 500 by 500 `car.png` writes exactly the present patch 0 of the 100 by 100 window at (10, 20). |

## Left out

- Window and display calls are not modelled. This covers window creation, fullscreen, the
  mouse-callback registration, `imshow`, polling `waitKey` every 15 ms and
  `destroyAllWindows`. Keys and mouse events arrive as one script of inputs instead, and
  the no-key value -1 is just another key.
- The live two-rectangle overlay drawn on every event (`draw_rectangle`) is left out
  because it only changes the display. The permanent outlines on `img_canvas` are recorded
  as boxes with their colour, not as pixels.
- `cv2.resize` is not modelled. A patch records its crop window and the side 150 it is
  resized to, not pixel data.
- NumPy slicing at the image edge is not modelled: negative starts that wrap and windows
  past the border. The crop is stated as the requested bounds.
- `Patching.Patcher.SavePatch`: a release where the slice is empty makes `cv2.resize` raise
  after the outline is drawn and before the write, the manifest line and the increment. The
  model always completes the save, so the one-patch-per-saving-event count of
  `Driver.Step` and `Driver.Run` does not cover that partial save.
- Reading images is not modelled. An image arrives as its name and dimensions, and an
  unreadable file, which would fail at `img.shape`, is not covered.
- Directory creation and the listing are left out. `os.makedirs` and `os.walk` are outside
  the model, and the listing order and the timestamp subfolder name are parameters.
- The output paths are left out. These are `output/{subfolder}/{name}` and the manifest path
  with its doubled slash. `Output` keeps ordered logs of writes and lines, so a later write
  to the same path, from another image with the same stem, appears as a second entry and
  not as an overwrite.
- `Patching.Patcher.constructor` requires a name with exactly one dot. The exception the
  code raises for any other name is modelled one level up, in `Driver.OpenSession` and the
  `Crashed` phase, which ends the run.
- `Driver.Run`: the real loop polls forever until Space or Esc ends it. The model stops
  when the input script runs out.
