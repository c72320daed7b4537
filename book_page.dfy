/**
 * One panel of the book (the `Page` component): the values it receives from
 * the book, the click rule with its debounce, and the per-frame choice of each
 * bone's target rotation and fold.
 */
module BookPage {
  import opened Wrappers
  import opened JsMath
  import Library

  /** What the book passes each panel (its props, after the `??` defaults). */
  datatype PanelProps = PanelProps(
    number: int,
    page: int,
    isOpened: bool,
    bookClosed: bool,
    isCover: bool,
    pagesLength: int)

  // ---------------------------------------------------------------- clicks

  const ClickDebounceDelay: int := 300

  /**
   * The page a click asks for, or None when the click writes nothing: the
   * front cover opens a closed book, the back cover closes a fully open one,
   * an unopened panel is turned to (or past, when it is already the current
   * page), and an opened panel turns one page back.
   */
  function ClickTarget(p: PanelProps): (r: Option<int>)
    ensures r.Some? && p.pagesLength >= 1 ==> r.value != p.page
  {
    if p.isCover && p.number == 0 && p.page == 0 then Some(1)
    else if p.isCover && p.number == p.pagesLength - 1 && p.page >= p.pagesLength - 1 then Some(0)
    else if !p.isOpened then
      if p.page == p.number then
        if p.number < p.pagesLength - 1 then Some(p.number + 1) else None
      else Some(p.number)
    else if p.page > 0 then Some(p.page - 1)
    else None
  }

  /** The click and hover state a panel keeps between renders (`lastClickTime`, `highlighted`). */
  class Panel {
    var lastClickTime: int
    var highlighted: bool

    constructor ()
      ensures lastClickTime == 0 && !highlighted
    {
      lastClickTime := 0;
      highlighted := false;
    }

    method PointerEnter()
      modifies this
      ensures highlighted && lastClickTime == old(lastClickTime)
    {
      highlighted := true;
    }

    method PointerLeave()
      modifies this
      ensures !highlighted && lastClickTime == old(lastClickTime)
    {
      highlighted := false;
    }

    /**
     * A click at time `now` (milliseconds). Less than 300 ms after the last
     * accepted click it is ignored and changes nothing; otherwise it records
     * `now`, writes the click rule's page (if any) to the page atom and clears
     * the highlight.
     */
    method OnClick(now: int, props: PanelProps, store: Library.Store) returns (accepted: bool)
      modifies this, store`page
      ensures accepted <==> now - old(lastClickTime) >= ClickDebounceDelay
      ensures lastClickTime == (if accepted then now else old(lastClickTime))
      ensures highlighted == (if accepted then false else old(highlighted))
      ensures store.page == (if accepted && ClickTarget(props).Some?
                             then ClickTarget(props).value else old(store.page))
    {
      if now - lastClickTime < ClickDebounceDelay {
        return false;
      }
      lastClickTime := now;
      var p := props;
      if p.isCover && p.number == 0 && p.page == 0 {
        store.page := 1;
      } else if p.isCover && p.number == p.pagesLength - 1 && p.page >= p.pagesLength - 1 {
        store.page := 0;
      } else if !p.isOpened {
        if p.page == p.number {
          if p.number < p.pagesLength - 1 {
            store.page := p.number + 1;
          }
        } else {
          store.page := p.number;
        }
      } else {
        if p.page > 0 {
          store.page := p.page - 1;
        }
      }
      highlighted := false;
      return true;
    }
  }

  // ---------------------------------------------------------------- pose targets

  const InsideCurveStrength: real := 0.18
  const OutsideCurveStrength: real := 0.05
  const TurningCurveStrength: real := 0.09

  /**
   * The hinge angle a panel turns to: -PI/2.4 when opened, PI/2 otherwise,
   * plus an offset that is only added while the book is open and is
   * `degToRad(number * 0)` times a sign.
   */
  function TargetRotation(isOpened: bool, bookClosed: bool, number: int): real
  {
    var base := if isOpened then -Pi / 2.4 else Pi / 2.0;
    if !bookClosed then base + DegToRad((number as real) * 0.0) * -Sign(base) else base
  }

  /** The per-panel offset is always zero: the hinge angle depends on `opened` alone. */
  lemma TargetRotationIgnoresNumber(isOpened: bool, bookClosed: bool, number: int)
    ensures TargetRotation(isOpened, bookClosed, number) == if isOpened then -Pi / 2.4 else Pi / 2.0
  {
  }

  /** What bone i is damped toward this frame: its Y rotation, and its fold angle and intensity (the X rotation is their product). */
  datatype BoneTarget = BoneTarget(rotation: real, foldAngle: real, foldIntensity: real)
  {
    function Fold(): real
    {
      foldAngle * foldIntensity
    }
  }

  /** Bone i's share of the at-rest inward curl (the first eight bones). */
  function InsideCurveIntensity(i: int, sin: real -> real): real
  {
    if i < 8 then sin((i as real) * 0.2 + 0.25) else 0.0
  }

  /** Bone i's share of the at-rest outward curl (bones from the eighth on). */
  function OutsideCurveIntensity(i: int, cos: real -> real): real
  {
    if i >= 8 then cos((i as real) * 0.3 + 0.09) else 0.0
  }

  /** Bone i's share of the bend while the page is turning. */
  function TurningIntensity(i: int, boneCount: nat, turningTime: real, sin: real -> real): real
    requires boneCount > 0
  {
    sin((i as real) * Pi * (1.0 / (boneCount as real))) * turningTime
  }

  /** Bone i's fold intensity while the page is turning (bones past the eighth). */
  function TurningFoldIntensity(i: int, boneCount: nat, turningTime: real, sin: real -> real): real
    requires boneCount > 0
  {
    if i > 8 then sin((i as real) * Pi * (1.0 / (boneCount as real)) - 0.5) * turningTime else 0.0
  }

  /**
   * The target of index i of `boneCount` for a panel, given its hinge angle and
   * the eased turning progress. Index 0's target drives the panel's own group
   * (the hinge), not `bones[0]`; every other index drives `bones[i]`. `sin` and `cos` are `Math.sin`/`Math.cos`,
   * left uninterpreted.
   */
  function BoneTargetAt(
    isCover: bool, bookClosed: bool, i: int, boneCount: nat,
    targetRotation: real, turningTime: real,
    sin: real -> real, cos: real -> real): BoneTarget
    requires boneCount > 0
  {
    if isCover then
      BoneTarget(if i == 0 then targetRotation else 0.0, 0.0, 0.0)
    else
      var foldRotationAngle := DegToRad(Sign(targetRotation) * 2.0);
      if bookClosed then
        BoneTarget(if i == 0 then targetRotation else 0.0, foldRotationAngle, 0.0)
      else
        var atRestBend :=
          (InsideCurveStrength * InsideCurveIntensity(i, sin) - OutsideCurveStrength * OutsideCurveIntensity(i, cos))
          * targetRotation;
        var turningBend := TurningCurveStrength * TurningIntensity(i, boneCount, turningTime, sin) * targetRotation;
        BoneTarget(if i == 0 then targetRotation else atRestBend * turningTime + turningBend,
                   foldRotationAngle, TurningFoldIntensity(i, boneCount, turningTime, sin))
  }

  /**
   * The frame callback's hinge angle followed by its loop over the bones.
   * The damping toward these targets is left out.
   */
  method FrameTargets(props: PanelProps, boneCount: nat, turningTime: real,
                      sin: real -> real, cos: real -> real)
    returns (targets: seq<BoneTarget>)
    requires boneCount > 0
    ensures |targets| == boneCount
    ensures forall i :: 0 <= i < boneCount ==>
      targets[i] == BoneTargetAt(props.isCover, props.bookClosed, i, boneCount,
                                 TargetRotation(props.isOpened, props.bookClosed, props.number),
                                 turningTime, sin, cos)
  {
    var targetRotation := if props.isOpened then -Pi / 2.4 else Pi / 2.0;
    if !props.bookClosed {
      var offset := DegToRad((props.number as real) * 0.0) * -Sign(targetRotation);
      targetRotation := targetRotation + offset;
    }
    targets := BoneLoop(props.isCover, props.bookClosed, boneCount, targetRotation, turningTime, sin, cos);
  }

  /** The loop over the bones: bone i's target for the given hinge angle and progress. */
  method BoneLoop(isCover: bool, bookClosed: bool, boneCount: nat, targetRotation: real,
                  turningTime: real, sin: real -> real, cos: real -> real)
    returns (targets: seq<BoneTarget>)
    requires boneCount > 0
    ensures |targets| == boneCount
    ensures forall i :: 0 <= i < boneCount ==>
      targets[i] == BoneTargetAt(isCover, bookClosed, i, boneCount, targetRotation, turningTime, sin, cos)
  {
    targets := [];
    var i := 0;
    while i < boneCount
      invariant 0 <= i <= boneCount
      invariant |targets| == i
      invariant forall j :: 0 <= j < i ==>
        targets[j] == BoneTargetAt(isCover, bookClosed, j, boneCount, targetRotation, turningTime, sin, cos)
    {
      var rotationAngle := 0.0;
      var foldRotationAngle := 0.0;
      var foldIntensity := 0.0;
      if isCover {
        if i == 0 {
          rotationAngle := targetRotation;
        } else {
          rotationAngle := 0.0;
        }
        foldRotationAngle := 0.0;
        foldIntensity := 0.0;
      } else {
        var insideCurveIntensity := InsideCurveIntensity(i, sin);
        var outsideCurveIntensity := OutsideCurveIntensity(i, cos);
        var turningIntensity := TurningIntensity(i, boneCount, turningTime, sin);
        foldRotationAngle := DegToRad(Sign(targetRotation) * 2.0);
        foldIntensity := TurningFoldIntensity(i, boneCount, turningTime, sin);
        if bookClosed {
          if i == 0 {
            rotationAngle := targetRotation;
          } else {
            rotationAngle := 0.0;
          }
          foldIntensity := 0.0;
        } else {
          var atRestBend :=
            (InsideCurveStrength * insideCurveIntensity - OutsideCurveStrength * outsideCurveIntensity)
            * targetRotation;
          var turningBend := TurningCurveStrength * turningIntensity * targetRotation;
          if i == 0 {
            rotationAngle := targetRotation;
          } else {
            rotationAngle := atRestBend * turningTime + turningBend;
          }
        }
      }
      ghost var expected := BoneTargetAt(isCover, bookClosed, i, boneCount, targetRotation, turningTime, sin, cos);
      assert isCover || bookClosed || i == 0 ==> BoneTarget(rotationAngle, foldRotationAngle, foldIntensity) == expected;
      targets := targets + [BoneTarget(rotationAngle, foldRotationAngle, foldIntensity)];
      i := i + 1;
    }
  }

  /** Covers, and every panel of a closed book, swing on bone 0 alone: the other bones stay flat and nothing folds. */
  lemma RigidWhenCoverOrClosed(
    isCover: bool, bookClosed: bool, i: int, boneCount: nat,
    targetRotation: real, turningTime: real, sin: real -> real, cos: real -> real)
    requires boneCount > 0
    requires isCover || bookClosed
    ensures var t := BoneTargetAt(isCover, bookClosed, i, boneCount, targetRotation, turningTime, sin, cos);
      t.rotation == (if i == 0 then targetRotation else 0.0) && t.Fold() == 0.0
  {
  }

  /** Index 0, whose target drives the panel's group (the hinge), always targets the hinge angle exactly. */
  lemma HingeTargetsRotation(
    isCover: bool, bookClosed: bool, boneCount: nat,
    targetRotation: real, turningTime: real, sin: real -> real, cos: real -> real)
    requires boneCount > 0
    ensures BoneTargetAt(isCover, bookClosed, 0, boneCount, targetRotation, turningTime, sin, cos).rotation
         == targetRotation
  {
  }

  /**
   * Once a turn has settled (eased progress 0) every bone but the hinge
   * targets 0 and nothing folds: the resting bend is scaled by the progress too.
   */
  lemma FlatWhenSettled(
    isCover: bool, bookClosed: bool, i: int, boneCount: nat,
    targetRotation: real, sin: real -> real, cos: real -> real)
    requires boneCount > 0 && i != 0
    ensures var t := BoneTargetAt(isCover, bookClosed, i, boneCount, targetRotation, 0.0, sin, cos);
      t.rotation == 0.0 && t.Fold() == 0.0
  {
  }

  /**
   * On the 7-bone chain the fold branch (i > 8) and the outside-curve branch
   * (i >= 8) are never taken: no bone ever folds, and a bone of an open
   * panel targets the inside curve plus the turning curl, both scaled by the
   * hinge angle and the progress.
   */
  lemma SevenBoneTargets(
    isCover: bool, bookClosed: bool, i: int,
    targetRotation: real, turningTime: real, sin: real -> real, cos: real -> real)
    requires 0 <= i < 7
    ensures var t := BoneTargetAt(isCover, bookClosed, i, 7, targetRotation, turningTime, sin, cos);
      && t.Fold() == 0.0
      && (!isCover && !bookClosed && i > 0 ==>
            t.rotation == targetRotation * turningTime *
              (InsideCurveStrength * sin((i as real) * 0.2 + 0.25)
               + TurningCurveStrength * sin((i as real) * Pi * (1.0 / 7.0))))
  {
  }
}
