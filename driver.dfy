/**
 * The top-level loop: images are taken from the end of the listing one at a
 * time, Space moves on to the next image (or ends the run when none is left),
 * Esc ends the run, and mouse events go to the current image's session.
 */
module Driver {
  import opened Wrappers
  import opened Naming
  import opened Patching

  /** The Space and Esc key codes as the key poll returns them. */
  const KEY_SPACE := 32
  const KEY_ESC := 27

  /** What the operator does between two polls: a key (or -1 for none), or a mouse event. */
  datatype Input = Key(code: int) | Pointer(event: MouseEvent)

  /** Showing an image, finished, or stopped by the exception a badly named image raises. */
  datatype Phase = Showing(current: InputImage) | Done | Crashed(name: string)

  /** The names not yet popped, the names popped so far (in pop order), and the phase. */
  datatype RunState = RunState(remaining: seq<InputImage>, popped: seq<InputImage>, phase: Phase)

  /** Take the last name off the list and open a session on it, which raises for a badly named image. */
  function Pop(s: RunState): (r: RunState)
    requires |s.remaining| > 0
    ensures |r.popped| == |s.popped| + 1 && r.remaining + [r.popped[|s.popped|]] == s.remaining
    ensures r.popped[..|r.popped| - 1] == s.popped
    ensures var img := s.remaining[|s.remaining| - 1];
      r.phase == (if Stem(img.name).Success? then Showing(img) else Crashed(img.name))
  {
    var img := s.remaining[|s.remaining| - 1];
    RunState(s.remaining[..|s.remaining| - 1], s.popped + [img],
             if Stem(img.name).Success? then Showing(img) else Crashed(img.name))
  }

  /** The state on entering the `while` loop, or on skipping it when there is no image. */
  function Start(images: seq<InputImage>): (s: RunState)
    ensures s.remaining + s.popped == images
    ensures |images| > 0 <==> |s.popped| == 1
    ensures s.phase.Showing? ==> |images| > 0 && s.phase.current == images[|images| - 1]
  {
    var s := RunState(images, [], Done);
    if |images| > 0 then Pop(s) else s
  }

  /** One pass of the loop body with the key `waitKey` returned. */
  function OnKey(s: RunState, key: int): (r: RunState)
    ensures r.phase.Showing? ==> s.phase.Showing?
    ensures |s.popped| <= |r.popped| <= |s.popped| + 1
    ensures r.remaining + r.popped[|s.popped|..] == s.remaining && r.popped[..|s.popped|] == s.popped
  {
    if !s.phase.Showing? then s
    else if key == KEY_SPACE then
      if |s.remaining| > 0 then Pop(s) else s.(phase := Done)
    else if key == KEY_ESC then s.(phase := Done)
    else s
  }

  /** The state after a sequence of keys. */
  function Drive(s: RunState, keys: seq<int>): (r: RunState)
    ensures r.phase.Showing? ==> s.phase.Showing?
    ensures |r.popped| >= |s.popped| && r.popped[..|s.popped|] == s.popped
    ensures |r.popped| <= |s.popped| + |keys|
    decreases |keys|
  {
    if keys == [] then s else Drive(OnKey(s, keys[0]), keys[1..])
  }

  /** The keys among the inputs, in order; mouse events do not touch the driver state. */
  function KeysOf(inputs: seq<Input>): (keys: seq<int>)
    ensures |keys| <= |inputs|
    decreases |inputs|
  {
    if inputs == [] then []
    else (if inputs[0].Key? then [inputs[0].code] else []) + KeysOf(inputs[1..])
  }

  /** Whether an input is a mouse event that saves a patch. */
  predicate Saves(input: Input) {
    input.Pointer? && SaveLabel(input.event).Some?
  }

  /** How many of the inputs are mouse events that save a patch. */
  function SaveCount(inputs: seq<Input>): nat
    decreases |inputs|
  {
    if inputs == [] then 0 else (if Saves(inputs[0]) then 1 else 0) + SaveCount(inputs[1..])
  }

  function Reversed<T>(s: seq<T>): (r: seq<T>)
    ensures |r| == |s|
    decreases |s|
  {
    if s == [] then [] else Reversed(s[1..]) + [s[0]]
  }

  /**
   * The run state agrees with the listing: what remains is a prefix of it,
   * what was popped is the rest in reverse, and a shown or crashing image is
   * the one popped last.
   */
  ghost predicate Consistent(images: seq<InputImage>, s: RunState) {
    && |s.remaining| <= |images|
    && s.remaining == images[..|s.remaining|]
    && s.popped == Reversed(images[|s.remaining|..])
    && (s.phase.Showing? ==>
          |s.popped| > 0 && s.phase.current == s.popped[|s.popped| - 1]
          && Stem(s.phase.current.name).Success?)
    && (s.phase.Crashed? ==>
          |s.popped| > 0 && s.phase.name == s.popped[|s.popped| - 1].name
          && Stem(s.phase.name).Failure?)
  }

  lemma PopKeepsConsistent(images: seq<InputImage>, s: RunState)
    requires Consistent(images, s) && |s.remaining| > 0
    ensures Consistent(images, Pop(s))
  {
  }

  lemma OnKeyKeepsConsistent(images: seq<InputImage>, s: RunState, key: int)
    requires Consistent(images, s)
    ensures Consistent(images, OnKey(s, key))
  {
  }

  lemma {:induction false} DriveKeepsConsistent(images: seq<InputImage>, s: RunState, keys: seq<int>)
    requires Consistent(images, s)
    ensures Consistent(images, Drive(s, keys))
    decreases |keys|
  {
    if keys != [] {
      OnKeyKeepsConsistent(images, s, keys[0]);
      DriveKeepsConsistent(images, OnKey(s, keys[0]), keys[1..]);
    }
  }

  lemma {:induction false} ReversedAt<T>(s: seq<T>, k: nat)
    requires k < |s|
    ensures Reversed(s)[k] == s[|s| - 1 - k]
    decreases |s|
  {
    if k < |s| - 1 {
      ReversedAt(s[1..], k);
    }
  }

  /**
   * Whatever keys are pressed, the images are popped from the end of the
   * listing: the k-th popped is the k-th from last, so each is shown at most
   * once and in reverse listing order, and the rest of the listing is still
   * waiting, untouched.
   */
  lemma PoppedInReverseOrder(images: seq<InputImage>, keys: seq<int>)
    ensures var s := Drive(Start(images), keys);
      && |s.popped| + |s.remaining| == |images|
      && s.remaining == images[..|s.remaining|]
      && (forall k :: 0 <= k < |s.popped| ==> s.popped[k] == images[|images| - 1 - k])
      && (s.phase.Showing? ==> |s.remaining| < |images| && s.phase.current == images[|s.remaining|])
  {
    StartConsistent(images);
    DriveKeepsConsistent(images, Start(images), keys);
    ConsistentInReverse(images, Drive(Start(images), keys));
  }

  lemma StartConsistent(images: seq<InputImage>)
    ensures Consistent(images, Start(images))
  {
    var s0 := RunState(images, [], Done);
    assert images[|images|..] == [];
    assert Consistent(images, s0);
    if |images| > 0 {
      PopKeepsConsistent(images, s0);
    }
  }

  lemma ConsistentInReverse(images: seq<InputImage>, s: RunState)
    requires Consistent(images, s)
    ensures |s.popped| + |s.remaining| == |images|
    ensures forall k :: 0 <= k < |s.popped| ==> s.popped[k] == images[|images| - 1 - k]
    ensures s.phase.Showing? ==> |s.remaining| < |images| && s.phase.current == images[|s.remaining|]
  {
    var tail := images[|s.remaining|..];
    forall k | 0 <= k < |s.popped|
      ensures s.popped[k] == images[|images| - 1 - k]
    {
      ReversedAt(tail, k);
    }
    if s.phase.Showing? {
      ReversedAt(tail, |s.popped| - 1);
    }
  }

  /** Once the loop has been left, no key changes anything. */
  lemma {:induction false} DriveAfterExit(s: RunState, keys: seq<int>)
    requires !s.phase.Showing?
    ensures Drive(s, keys) == s
    decreases |keys|
  {
    if keys != [] {
      DriveAfterExit(s, keys[1..]);
    }
  }

  /** Pressing keys in two batches is pressing them all. */
  lemma {:induction false} DriveAppend(s: RunState, a: seq<int>, b: seq<int>)
    ensures Drive(s, a + b) == Drive(Drive(s, a), b)
    decreases |a|
  {
    if a == [] {
      assert a + b == b;
    } else {
      assert (a + b)[0] == a[0];
      assert (a + b)[1..] == a[1..] + b;
      DriveAppend(OnKey(s, a[0]), a[1..], b);
    }
  }

  lemma DriveSnoc(s: RunState, keys: seq<int>, key: int)
    ensures Drive(s, keys + [key]) == OnKey(Drive(s, keys), key)
  {
    DriveAppend(s, keys, [key]);
    assert Drive(Drive(s, keys), [key]) == Drive(OnKey(Drive(s, keys), key), []);
  }

  /** Esc ends the run whenever it is pressed, whatever comes before or after. */
  lemma EscapeStops(s: RunState, before: seq<int>, after: seq<int>)
    ensures !Drive(s, before + [KEY_ESC] + after).phase.Showing?
  {
    DriveAppend(s, before + [KEY_ESC], after);
    DriveAppend(s, before, [KEY_ESC]);
    var t := Drive(s, before + [KEY_ESC]);
    assert !t.phase.Showing?;
    DriveAfterExit(t, after);
  }

  /**
   * Space on the last image ends the run; Space with images left shows the
   * next one from the end; any other key than Space and Esc leaves the state
   * as it was.
   */
  lemma OnKeyRules(s: RunState, key: int)
    requires s.phase.Showing?
    ensures key == KEY_SPACE && s.remaining == [] ==> OnKey(s, key).phase == Done
    ensures key == KEY_SPACE && s.remaining != [] ==>
      && OnKey(s, key).remaining == s.remaining[..|s.remaining| - 1]
      && OnKey(s, key).popped == s.popped + [s.remaining[|s.remaining| - 1]]
    ensures key == KEY_ESC ==> OnKey(s, key) == s.(phase := Done)
    ensures key != KEY_SPACE && key != KEY_ESC ==> OnKey(s, key) == s
  {
  }

  lemma KeysOfAppend(inputs: seq<Input>, i: nat)
    requires i < |inputs|
    ensures KeysOf(inputs[..i + 1]) == KeysOf(inputs[..i]) + (if inputs[i].Key? then [inputs[i].code] else [])
    ensures SaveCount(inputs[..i + 1]) == SaveCount(inputs[..i]) + (if Saves(inputs[i]) then 1 else 0)
    decreases i
  {
    if i > 0 {
      assert inputs[..i + 1][1..] == inputs[1..][..i];
      assert inputs[..i][1..] == inputs[1..][..i - 1];
      KeysOfAppend(inputs[1..], i - 1);
    }
  }

  lemma KeysOfSplit(inputs: seq<Input>, i: nat)
    requires i <= |inputs|
    ensures KeysOf(inputs) == KeysOf(inputs[..i]) + KeysOf(inputs[i..])
    ensures SaveCount(inputs) == SaveCount(inputs[..i]) + SaveCount(inputs[i..])
    decreases i
  {
    if i > 0 {
      assert inputs[..i][1..] == inputs[1..][..i - 1];
      assert inputs[i..] == inputs[1..][i - 1..];
      KeysOfSplit(inputs[1..], i - 1);
    }
  }

  /** Take the last image off the list and open a session on it, or stop with the exception. */
  method OpenSession(remaining: seq<InputImage>, out: Output)
    returns (rest: seq<InputImage>, img: InputImage, p: Patcher?, phase: Phase)
    requires |remaining| > 0 && out.Valid()
    ensures rest == remaining[..|remaining| - 1] && img == remaining[|remaining| - 1]
    ensures phase == (if Stem(img.name).Success? then Showing(img) else Crashed(img.name))
    ensures phase.Showing? ==>
      && p != null && fresh(p) && p.Valid() && p.Initial() && p.out == out && p.img == img
      && p.stem == Stem(img.name).value && p.first == |out.files|
  {
    img := remaining[|remaining| - 1];
    rest := remaining[..|remaining| - 1];
    if Stem(img.name).Success? {
      p := new Patcher(img, out);
      phase := Showing(img);
    } else {
      p := null;
      phase := Crashed(img.name);
    }
  }

  /** The stems of the popped images whose names could be split. */
  function Stems(popped: seq<InputImage>): set<string>
    decreases |popped|
  {
    if popped == [] then {}
    else
      var last := popped[|popped| - 1];
      Stems(popped[..|popped| - 1]) + (if Stem(last.name).Success? then {Stem(last.name).value} else {})
  }

  /**
   * A Space press in the loop: pop and open the next image, or leave the loop
   * when none is left.
   */
  method PressSpace(remaining: seq<InputImage>, ghost popped: seq<InputImage>, phase: Phase, out: Output, p: Patcher?)
    returns (remaining': seq<InputImage>, ghost popped': seq<InputImage>, phase': Phase, p': Patcher?)
    requires out.Valid() && phase.Showing?
    ensures RunState(remaining', popped', phase') == OnKey(RunState(remaining, popped, phase), KEY_SPACE)
    ensures Stems(popped) <= Stems(popped')
    ensures phase'.Showing? ==>
      && p' != null && fresh(p') && p'.Valid() && p'.Initial() && p'.out == out && p'.img == phase'.current
      && Stem(p'.img.name).Success? && p'.stem == Stem(p'.img.name).value
      && p'.stem in Stems(popped') && p'.first == |out.files|
  {
    if |remaining| > 0 {
      var img;
      remaining', img, p', phase' := OpenSession(remaining, out);
      popped' := popped + [img];
      assert popped'[..|popped'| - 1] == popped;
    } else {
      remaining', popped', phase', p' := remaining, popped, Done, p;
    }
  }

  /**
   * The session invariant the loop keeps while an image is shown: the session
   * is on the shown image, writes into the run's folder, and its stem is the
   * stem of an image popped so far.
   */
  ghost predicate SessionOpen(p: Patcher?, out: Output, popped: seq<InputImage>, phase: Phase)
    reads p, out
  {
    && p != null && p.out == out && p.Valid()
    && phase.Showing? && p.img == phase.current
    && Stem(p.img.name).Success? && p.stem == Stem(p.img.name).value && p.stem in Stems(popped)
  }

  /** Every patch written so far was cut from an image popped so far. */
  ghost predicate WrittenFromPopped(out: Output, popped: seq<InputImage>)
    reads out
  {
    forall k :: 0 <= k < |out.files| ==> out.files[k].stem in Stems(popped)
  }

  /**
   * One input while an image is shown: a mouse event goes to the current
   * session, which writes the patch it saves, if any; a key goes to the
   * driver and touches neither the session nor the output, and every key but
   * Space keeps the session.
   */
  method Step(remaining: seq<InputImage>, ghost popped: seq<InputImage>, phase: Phase,
              p: Patcher?, out: Output, input: Input)
    returns (remaining': seq<InputImage>, ghost popped': seq<InputImage>, phase': Phase, p': Patcher?)
    requires SessionOpen(p, out, popped, phase) && WrittenFromPopped(out, popped)
    modifies p, out
    ensures RunState(remaining', popped', phase') ==
      (if input.Key? then OnKey(RunState(remaining, popped, phase), input.code)
       else RunState(remaining, popped, phase))
    ensures out.Valid() && WrittenFromPopped(out, popped')
    ensures phase'.Showing? ==> SessionOpen(p', out, popped', phase') && (p' == p || fresh(p'))
    ensures input.Key? ==> unchanged(p, out)
    ensures !(input.Key? && input.code == KEY_SPACE) ==> p' == p
    ensures input.Key? && input.code == KEY_SPACE && phase'.Showing? ==> p' != null && fresh(p') && p'.Initial()
    ensures input.Pointer? ==>
      var e := input.event;
      && p.rectPosX == e.x && p.rectPosY == e.y
      && p.rectSize == NextSize(old(p.rectSize), p.imgHeight, p.imgWidth, e)
      && p.patchIndex == old(p.patchIndex) + |SavedBy(e, p.stem, old(p.patchIndex), old(p.rectSize))|
      && out.files == old(out.files) + SavedBy(e, p.stem, old(p.patchIndex), old(p.rectSize))
      && out.manifest == old(out.manifest)
           + (if SaveLabel(e).Some? then [ManifestLine(SaveLabel(e).value, p.stem, old(p.patchIndex))] else [])
  {
    remaining', popped', phase', p' := remaining, popped, phase, p;
    match input {
      case Pointer(e) =>
        p.EventDispatcher(e);
      case Key(key) =>
        if key == KEY_SPACE {
          remaining', popped', phase', p' := PressSpace(remaining, popped, phase, out, p);
        }
        if key == KEY_ESC {
          phase' := Done;
        }
    }
  }

  /** The loop was still showing an image before each of the first `n` inputs. */
  ghost predicate ShownThrough(images: seq<InputImage>, inputs: seq<Input>, n: nat)
    requires n <= |inputs|
  {
    forall j :: 0 <= j < n ==> Drive(Start(images), KeysOf(inputs[..j])).phase.Showing?
  }

  lemma ShownThroughNext(images: seq<InputImage>, inputs: seq<Input>, n: nat)
    requires n < |inputs| && ShownThrough(images, inputs, n)
    requires Drive(Start(images), KeysOf(inputs[..n])).phase.Showing?
    ensures ShownThrough(images, inputs, n + 1)
  {
  }

  /** One more input: the driver state and the save count after it. */
  lemma ScriptAdvance(images: seq<InputImage>, inputs: seq<Input>, i: nat)
    requires i < |inputs| && ShownThrough(images, inputs, i)
    requires Drive(Start(images), KeysOf(inputs[..i])).phase.Showing?
    ensures Drive(Start(images), KeysOf(inputs[..i + 1])) ==
      (if inputs[i].Key? then OnKey(Drive(Start(images), KeysOf(inputs[..i])), inputs[i].code)
       else Drive(Start(images), KeysOf(inputs[..i])))
    ensures SaveCount(inputs[..i + 1]) == SaveCount(inputs[..i]) + (if Saves(inputs[i]) then 1 else 0)
    ensures ShownThrough(images, inputs, i + 1)
    ensures ReplayAll(images, inputs[..i]).state == Drive(Start(images), KeysOf(inputs[..i]))
    ensures ReplayAll(images, inputs[..i + 1]) == ReplayStep(ReplayAll(images, inputs[..i]), inputs[i])
  {
    ReplayState(images, inputs[..i]);
    assert inputs[..i + 1][..i] == inputs[..i];
    ShownThroughNext(images, inputs, i);
    KeysOfAppend(inputs, i);
    if inputs[i].Key? {
      DriveSnoc(Start(images), KeysOf(inputs[..i]), inputs[i].code);
    } else {
      assert KeysOf(inputs[..i + 1]) == KeysOf(inputs[..i]);
    }
  }

  /** Once the loop is left or the script is used up, the rest of the keys change nothing. */
  lemma ScriptEnd(images: seq<InputImage>, inputs: seq<Input>, i: nat)
    requires i <= |inputs|
    requires i < |inputs| ==> !Drive(Start(images), KeysOf(inputs[..i])).phase.Showing?
    ensures Drive(Start(images), KeysOf(inputs)) == Drive(Start(images), KeysOf(inputs[..i]))
    ensures SaveCount(inputs[..i]) <= SaveCount(inputs)
    ensures ReplayAll(images, inputs) == ReplayAll(images, inputs[..i])
  {
    ReplayState(images, inputs[..i]);
    if i < |inputs| {
      ReplayFrozen(images, inputs, i);
    } else {
      assert inputs[..i] == inputs;
    }
    KeysOfSplit(inputs, i);
    DriveAppend(Start(images), KeysOf(inputs[..i]), KeysOf(inputs[i..]));
    if i < |inputs| {
      DriveAfterExit(Drive(Start(images), KeysOf(inputs[..i])), KeysOf(inputs[i..]));
    } else {
      assert inputs[i..] == [];
    }
  }

  // ---------------------------------------------------------------------
  // The run replayed on values: driver state, current session, files written
  // ---------------------------------------------------------------------

  /** What the run needs of the current `Patcher`: its stem, image size, index, position and size. */
  datatype Session = Session(stem: string, height: nat, width: nat, index: nat, x: int, y: int, size: int)

  /** The session `Patcher(...)` opens on the shown image (any value when none is shown). */
  function Opened(s: RunState): Session {
    if s.phase.Showing? && Stem(s.phase.current.name).Success? then
      Session(Stem(s.phase.current.name).value, s.phase.current.height, s.phase.current.width,
              0, 0, 0, INITIAL_RECT_SIZE)
    else Session("", 0, 0, 0, 0, 0, INITIAL_RECT_SIZE)
  }

  /** The session after `event_dispatcher` handles one mouse event. */
  function Feed(ses: Session, e: MouseEvent): Session {
    ses.(index := ses.index + |SavedBy(e, ses.stem, ses.index, ses.size)|, x := e.x, y := e.y,
         size := NextSize(ses.size, ses.height, ses.width, e))
  }

  /** The driver state, the current session and the patch files written so far. */
  datatype Replay = Replay(state: RunState, session: Session, files: seq<PatchFile>)

  /** One input: ignored once the loop is left, a key to the driver, a mouse event to the session. */
  function ReplayStep(r: Replay, input: Input): Replay {
    if !r.state.phase.Showing? then r
    else match input
      case Pointer(e) =>
        Replay(r.state, Feed(r.session, e), r.files + SavedBy(e, r.session.stem, r.session.index, r.session.size))
      case Key(k) =>
        var s := OnKey(r.state, k);
        Replay(s, if k == KEY_SPACE && s.phase.Showing? then Opened(s) else r.session, r.files)
  }

  /** The run replayed over a script of inputs. */
  function ReplayAll(images: seq<InputImage>, inputs: seq<Input>): Replay
    decreases |inputs|
  {
    if inputs == [] then Replay(Start(images), Opened(Start(images)), [])
    else ReplayStep(ReplayAll(images, inputs[..|inputs| - 1]), inputs[|inputs| - 1])
  }

  /** The replay's driver state is the key-driven state machine's, whatever mouse events come between. */
  lemma {:induction false} ReplayState(images: seq<InputImage>, inputs: seq<Input>)
    ensures ReplayAll(images, inputs).state == Drive(Start(images), KeysOf(inputs))
    decreases |inputs|
  {
    if inputs != [] {
      var n := |inputs| - 1;
      ReplayState(images, inputs[..n]);
      KeysOfAppend(inputs, n);
      assert inputs[..n + 1] == inputs;
      var s := Drive(Start(images), KeysOf(inputs[..n]));
      if inputs[n].Key? {
        DriveSnoc(Start(images), KeysOf(inputs[..n]), inputs[n].code);
      } else {
        assert KeysOf(inputs) == KeysOf(inputs[..n]);
      }
      if !s.phase.Showing? && inputs[n].Key? {
        assert OnKey(s, inputs[n].code) == s;
      }
    }
  }

  /** Once the loop is left, later inputs change nothing: no state, no session, no file. */
  lemma {:induction false} ReplayFrozen(images: seq<InputImage>, inputs: seq<Input>, i: nat)
    requires i <= |inputs| && !ReplayAll(images, inputs[..i]).state.phase.Showing?
    ensures ReplayAll(images, inputs) == ReplayAll(images, inputs[..i])
    decreases |inputs| - i
  {
    if i < |inputs| {
      assert inputs[..i + 1][..i] == inputs[..i];
      ReplayFrozen(images, inputs, i + 1);
    } else {
      assert inputs[..i] == inputs;
    }
  }

  /** One left release at (10, 20) on `car.png` writes the present patch 0 of the 100 by 100 window there. */
  lemma ExampleReplay()
    ensures ReplayAll([InputImage("car.png", 500, 500)], [Pointer(MouseEvent(EVENT_LBUTTONUP, 10, 20, 0))]).files
         == [PatchFile(Present, "car", 0, CropWindow(10, 20, INITIAL_RECT_SIZE), [], PATCH_SIZE)]
  {
    ExampleStem();
    var inputs := [Pointer(MouseEvent(EVENT_LBUTTONUP, 10, 20, 0))];
    assert inputs[..0] == [];
  }

  /** The current `Patcher` is the replay's session. */
  ghost predicate Matches(p: Patcher, ses: Session)
    reads p
  {
    && p.stem == ses.stem && p.imgHeight == ses.height && p.imgWidth == ses.width
    && p.patchIndex == ses.index && p.rectPosX == ses.x && p.rectPosY == ses.y && p.rectSize == ses.size
  }

  /**
   * The whole run over a script of inputs, stopping at the first exit. It
   * returns the output folder, the final state and how many inputs were
   * consumed before the loop was left.
   */
  method Run(images: seq<InputImage>, subfolder: string, inputs: seq<Input>)
    returns (out: Output, remaining: seq<InputImage>, ghost popped: seq<InputImage>, phase: Phase, consumed: nat)
    ensures fresh(out) && out.Valid() && out.subfolder == subfolder
    ensures RunState(remaining, popped, phase) == Drive(Start(images), KeysOf(inputs))
    ensures consumed <= |inputs|
    ensures ShownThrough(images, inputs, consumed)
    ensures consumed < |inputs| ==> !Drive(Start(images), KeysOf(inputs[..consumed])).phase.Showing?
    ensures |out.files| == SaveCount(inputs[..consumed]) <= SaveCount(inputs)
    ensures WrittenFromPopped(out, popped)
    ensures out.files == ReplayAll(images, inputs[..consumed]).files == ReplayAll(images, inputs).files
  {
    out := new Output(subfolder);
    remaining := images;
    popped := [];
    phase := Done;
    var p: Patcher? := null;
    if |remaining| > 0 {
      var img;
      remaining, img, p, phase := OpenSession(remaining, out);
      popped := [img];
    }
    assert RunState(remaining, popped, phase) == Start(images);
    assert inputs[..0] == [];
    var i := 0;
    while i < |inputs| && phase.Showing?
      invariant 0 <= i <= |inputs|
      invariant RunState(remaining, popped, phase) == Drive(Start(images), KeysOf(inputs[..i]))
      invariant out.Valid() && out.subfolder == subfolder
      invariant ShownThrough(images, inputs, i)
      invariant |out.files| == SaveCount(inputs[..i])
      invariant phase.Showing? ==> SessionOpen(p, out, popped, phase) && fresh(p)
      invariant WrittenFromPopped(out, popped)
      invariant out.files == ReplayAll(images, inputs[..i]).files
      invariant phase.Showing? ==> Matches(p, ReplayAll(images, inputs[..i]).session)
      decreases |inputs| - i
    {
      ScriptAdvance(images, inputs, i);
      remaining, popped, phase, p := Step(remaining, popped, phase, p, out, inputs[i]);
      i := i + 1;
    }
    consumed := i;
    ScriptEnd(images, inputs, i);
  }
}
