/** Image overrides: three loops over registry lists, and which registry each of them obeys. */
module ImageOverrides {
  import opened Common

  datatype Registry = Registry(source: string, mirror: string)

  function LastSegment(image: string): (r: string)
    ensures |r| <= |image| && image[|image| - |r|..] == r && '/' !in r
    ensures |r| < |image| ==> image[|image| - |r| - 1] == '/'
  {
    if image == "" then ""
    else
      var c := image[|image| - 1];
      if c == '/' then "" else LastSegment(image[..|image| - 1]) + [c]
  }

  function ImageOverride(g: Registry, image: string): (r: string)
  {
    var source, mirror := Trim(g.source), Trim(g.mirror);
    if source == "" then
      if mirror == "" then LastSegment(image) else mirror + "/" + LastSegment(image)
    else if source <= image then mirror + image[|source|..]
    else image
  }

  predicate Changes(g: Registry, image: string) {
    ImageOverride(g, image) != image
  }

  /** What precedes the last segment, with its slash. */
  function Home(image: string): (r: string)
    ensures r + LastSegment(image) == image
  {
    var n := |image| - |LastSegment(image)|;
    assert image == image[..n] + image[n..];
    image[..n]
  }

  /** Which registries change an image, told from the registry and the image alone. */
  lemma ChangesExactly(g: Registry, image: string)
    ensures var source, mirror := Trim(g.source), Trim(g.mirror);
            Changes(g, image) <==>
              if source == "" then Home(image) != (if mirror == "" then "" else mirror + "/")
              else source <= image && source != mirror
  {
    var source, mirror := Trim(g.source), Trim(g.mirror);
    if source == "" {
      var to := if mirror == "" then "" else mirror + "/";
      SameTail(to, Home(image), LastSegment(image));
    } else if source <= image {
      SameTail(mirror, source, image[|source|..]);
    }
  }

  lemma SameTail(a: string, b: string, tail: string)
    ensures a + tail == b + tail <==> a == b
  {
    if a + tail == b + tail {
      assert |a| == |b|;
      assert a == (a + tail)[..|a|] == (b + tail)[..|b|] == b;
    }
  }

  /** Swapping source and mirror takes an override back. */
  lemma OverrideUndone(g: Registry, image: string)
    requires Trim(g.source) != "" && Trim(g.mirror) != "" && Trim(g.source) <= image
    ensures ImageOverride(Registry(g.mirror, g.source), ImageOverride(g, image)) == image
  {
    var source, mirror := Trim(g.source), Trim(g.mirror);
    var there := mirror + image[|source|..];
    assert there[|mirror|..] == image[|source|..];
  }

  // ---- which registry decides ----

  /** What each registry makes of the image. */
  function Overrides(gs: seq<Registry>, image: string): (r: seq<string>)
  {
    seq(|gs|, i requires 0 <= i < |gs| => ImageOverride(gs[i], image))
  }

  function LastOther(names: seq<string>, image: string): (r: string)
  {
    if names == [] then image
    else if names[|names| - 1] != image then names[|names| - 1]
    else LastOther(names[..|names| - 1], image)
  }

  function FirstOther(names: seq<string>, image: string): (r: string)
  {
    if names == [] then image
    else if names[0] != image then names[0]
    else FirstOther(names[1..], image)
  }

  /** The override of the last registry that changes the image. */
  function LastChange(gs: seq<Registry>, image: string): (r: string)
  {
    LastOther(Overrides(gs, image), image)
  }

  /** The override of the first registry that changes the image. */
  function FirstChange(gs: seq<Registry>, image: string): (r: string)
  {
    FirstOther(Overrides(gs, image), image)
  }

  lemma {:induction false} LastOtherAt(names: seq<string>, image: string, i: nat)
    requires i < |names| && names[i] != image
    requires forall j | i < j < |names| :: names[j] == image
    ensures LastOther(names, image) == names[i]
  {
    if i < |names| - 1 {
      LastOtherAt(names[..|names| - 1], image, i);
    }
  }

  lemma {:induction false} FirstOtherAt(names: seq<string>, image: string, i: nat)
    requires i < |names| && names[i] != image
    requires forall j | 0 <= j < i :: names[j] == image
    ensures FirstOther(names, image) == names[i]
  {
    if i > 0 {
      FirstOtherAt(names[1..], image, i - 1);
    }
  }

  lemma {:induction false} NoOther(names: seq<string>, image: string)
    ensures LastOther(names, image) != image ==> exists i | 0 <= i < |names| :: names[i] != image
    ensures FirstOther(names, image) != image ==> exists i | 0 <= i < |names| :: names[i] != image
  {
    if names != [] {
      var n := |names| - 1;
      NoOther(names[..n], image);
      NoOther(names[1..], image);
      if i :| 0 <= i < n && names[..n][i] != image {
        assert names[i] != image;
      }
      if i :| 0 <= i < n && names[1..][i] != image {
        assert names[i + 1] != image;
      }
    }
  }

  predicate AtMostOneChanges(gs: seq<Registry>, image: string) {
    forall i, j | 0 <= i < j < |gs| :: !(Changes(gs[i], image) && Changes(gs[j], image))
  }

  /** The loops agree whenever at most one registry changes the image. */
  lemma LoopsAgree(gs: seq<Registry>, image: string)
    requires AtMostOneChanges(gs, image)
    ensures FirstChange(gs, image) == LastChange(gs, image)
  {
    var names := Overrides(gs, image);
    assert forall i | 0 <= i < |gs| :: names[i] != image <==> Changes(gs[i], image);
    NoOther(names, image);
    if i :| 0 <= i < |names| && names[i] != image {
      assert Changes(gs[i], image);
      FirstOtherAt(names, image, i);
      LastOtherAt(names, image, i);
    }
  }

  /** The front of the image that a registry replaces, and what it puts there. */
  function From(g: Registry, image: string): (r: string)
  {
    if Trim(g.source) == "" then Home(image) else Trim(g.source)
  }

  function To(g: Registry): (r: string)
  {
    if Trim(g.source) == "" && Trim(g.mirror) != "" then Trim(g.mirror) + "/" else Trim(g.mirror)
  }

  /** The registry speaks of the image and would not put back what it takes away. */
  predicate Concerns(g: Registry, image: string) {
    From(g, image) <= image && From(g, image) != To(g)
  }

  lemma ConcernsExactly(g: Registry, image: string)
    ensures Concerns(g, image) <==> Changes(g, image)
    ensures Concerns(g, image) ==> ImageOverride(g, image) == To(g) + image[|From(g, image)|..]
  {
    ChangesExactly(g, image);
    assert Home(image) <= image && image[|Home(image)|..] == LastSegment(image);
  }

  /** Two registries send an image to one place: the longer front differs by what the shorter leaves standing. */
  predicate SamePlace(a: Registry, b: Registry, image: string) {
    if |From(a, image)| <= |From(b, image)|
    then To(a) + From(b, image)[|From(a, image)|..] == To(b)
    else To(b) + From(a, image)[|From(b, image)|..] == To(a)
  }

  lemma LongerFront(a: Registry, b: Registry, image: string)
    requires Concerns(a, image) && Concerns(b, image) && |From(a, image)| <= |From(b, image)|
    ensures ImageOverride(a, image) == ImageOverride(b, image)
            <==> To(a) + From(b, image)[|From(a, image)|..] == To(b)
  {
    var short, long := From(a, image), From(b, image);
    ConcernsExactly(a, image);
    ConcernsExactly(b, image);
    var rest := image[|long|..];
    assert image[|short|..] == long[|short|..] + rest;
    assert To(a) + image[|short|..] == To(a) + long[|short|..] + rest;
    SameTail(To(a) + long[|short|..], To(b), rest);
  }

  lemma SamePlaceExactly(a: Registry, b: Registry, image: string)
    requires Concerns(a, image) && Concerns(b, image)
    ensures ImageOverride(a, image) == ImageOverride(b, image) <==> SamePlace(a, b, image)
  {
    if |From(a, image)| <= |From(b, image)| {
      LongerFront(a, b, image);
    } else {
      LongerFront(b, a, image);
    }
  }

  /** Which registries concern the image. */
  function Marks(gs: seq<Registry>, image: string): (r: seq<bool>)
  {
    seq(|gs|, k requires 0 <= k < |gs| => Concerns(gs[k], image))
  }

  /** `i` is the first and `j` the last mark. */
  predicate FirstAndLast(marks: seq<bool>, i: nat, j: nat) {
    && i <= j < |marks| && marks[i] && marks[j]
    && forall k | 0 <= k < |marks| && (k < i || j < k) :: !marks[k]
  }

  /** No registry concerns the image, or the first and the last that do send it to one place. */
  predicate Agreeable(gs: seq<Registry>, image: string) {
    forall i, j | 0 <= i <= j < |gs| && FirstAndLast(Marks(gs, image), i, j) :: SamePlace(gs[i], gs[j], image)
  }

  lemma {:induction false} FirstMark(marks: seq<bool>) returns (i: nat)
    requires true in marks
    ensures i < |marks| && marks[i] && forall k | 0 <= k < i :: !marks[k]
  {
    i := 0;
    if !marks[0] {
      var rest := FirstMark(marks[1..]);
      i := rest + 1;
    }
  }

  lemma {:induction false} LastMark(marks: seq<bool>) returns (j: nat)
    requires true in marks
    ensures j < |marks| && marks[j] && forall k | j < k < |marks| :: !marks[k]
  {
    j := |marks| - 1;
    if !marks[j] {
      j := LastMark(marks[..|marks| - 1]);
    }
  }

  lemma EndsFound(marks: seq<bool>) returns (i: nat, j: nat)
    requires true in marks
    ensures FirstAndLast(marks, i, j)
    ensures forall i', j' | 0 <= i' <= j' < |marks| && FirstAndLast(marks, i', j') :: i' == i && j' == j
  {
    i := FirstMark(marks);
    j := LastMark(marks);
  }

  lemma MarksChanges(gs: seq<Registry>, image: string)
    ensures forall k | 0 <= k < |gs| :: Marks(gs, image)[k] <==> Overrides(gs, image)[k] != image
  {
    forall k | 0 <= k < |gs| ensures Marks(gs, image)[k] <==> Overrides(gs, image)[k] != image {
      ConcernsExactly(gs[k], image);
    }
  }

  lemma LoopsAtEnds(gs: seq<Registry>, image: string, i: nat, j: nat)
    requires FirstAndLast(Marks(gs, image), i, j)
    ensures FirstChange(gs, image) == ImageOverride(gs[i], image) && LastChange(gs, image) == ImageOverride(gs[j], image)
  {
    MarksChanges(gs, image);
    FirstOtherAt(Overrides(gs, image), image, i);
    LastOtherAt(Overrides(gs, image), image, j);
  }

  lemma NothingConcerns(gs: seq<Registry>, image: string)
    requires true !in Marks(gs, image)
    ensures FirstChange(gs, image) == image == LastChange(gs, image)
  {
    MarksChanges(gs, image);
    NoOther(Overrides(gs, image), image);
    assert forall k | 0 <= k < |gs| :: !Marks(gs, image)[k];
  }

  /** For every list, the loops agree exactly when the registries and the image say so; no override is computed. */
  lemma LoopsAgreeExactly(gs: seq<Registry>, image: string)
    ensures FirstChange(gs, image) == LastChange(gs, image) <==> Agreeable(gs, image)
  {
    var marks := Marks(gs, image);
    if true in marks {
      var i, j := EndsFound(marks);
      LoopsAtEnds(gs, image, i, j);
      assert marks[i] == Concerns(gs[i], image) && marks[j] == Concerns(gs[j], image);
      SamePlaceExactly(gs[i], gs[j], image);
    } else {
      NothingConcerns(gs, image);
    }
  }

  /** Two mirrors of one source: the agents use the last, the sidecar the first. */
  lemma SidecarDiffers(source: string, first: string, last: string, tail: string)
    requires Trim(source) != "" && Trim(source) != Trim(first) && Trim(source) != Trim(last) && Trim(first) != Trim(last)
    ensures var gs := [Registry(source, first), Registry(source, last)];
            FirstChange(gs, Trim(source) + tail) != LastChange(gs, Trim(source) + tail)
  {
    var gs, image := [Registry(source, first), Registry(source, last)], Trim(source) + tail;
    ConcernsExactly(gs[0], image);
    ConcernsExactly(gs[1], image);
    LoopsAtEnds(gs, image, 0, 1);
    SamePlaceExactly(gs[0], gs[1], image);
  }

  // ---- the code ----

  /** The annotation of a cluster, if there is one; it may not be valid JSON. */
  type Annotation = Option<Result<seq<Registry>>>

  /** The loop all callers of the annotation share. */
  method LastOverride(gs: seq<Registry>, image: string) returns (r: string)
    ensures r == LastChange(gs, image)
  {
    r := image;
    ghost var names := Overrides(gs, image);
    for i := 0 to |gs|
      invariant r == LastOther(names[..i], image)
    {
      assert names[..i + 1][..i] == names[..i];
      var name := ImageOverride(gs[i], image);
      if name != image {
        r := name;
      }
    }
    assert names[..|gs|] == names;
  }

  method OverrideImageByAnnotation(annotation: Annotation, image: string) returns (r: Result<string>)
    ensures r == match annotation
                 case None => Ok(image)
                 case Some(Err) => Err
                 case Some(Ok(gs)) => Ok(LastChange(gs, image))
  {
    if annotation.None? {
      return Ok(image);
    }
    if annotation.value.Err? {
      return Err;
    }
    if |annotation.value.value| == 0 {
      return Ok(image);
    }
    var name := LastOverride(annotation.value.value, image);
    return Ok(name);
  }

  method TLSProfileSyncImage(fallback: string, gs: seq<Registry>, annotation: Annotation) returns (r: Result<string>)
    ensures r == if fallback == "" then Err
                 else if gs != [] then Ok(FirstChange(gs, fallback))
                 else Picked([], annotation, fallback)
  {
    if fallback == "" {
      return Err;
    }
    if |gs| != 0 {
      ghost var names := Overrides(gs, fallback);
      for i := 0 to |gs|
        invariant FirstOther(names, fallback) == FirstOther(names[i..], fallback)
      {
        assert names[i..][1..] == names[i + 1..];
        var name := ImageOverride(gs[i], fallback);
        if name != fallback {
          return Ok(name);
        }
      }
      return Ok(fallback);
    }
    r := OverrideImageByAnnotation(annotation, fallback);
  }

  /** The image an agent gets: klusterlet config registries, when there are any, silence the annotation. */
  function Picked(gs: seq<Registry>, annotation: Annotation, image: string): (r: Result<string>)
  {
    if gs != [] then Ok(LastChange(gs, image))
    else if annotation.None? then Ok(image)
    else if annotation.value.Err? then Err
    else Ok(LastChange(annotation.value.value, image))
  }

  /** The klusterlet config and the annotation choose the same image from the same registries. */
  lemma ConfigAndAnnotationAgree(gs: seq<Registry>, other: Annotation, image: string)
    requires gs != []
    ensures Picked(gs, other, image) == Picked([], Some(Ok(gs)), image)
  {
  }

  /** The images of the agents named in `names`, from their defaults; an absent or empty default is an error. */
  method AgentImages(names: seq<string>, defaults: map<string, string>, gs: seq<Registry>, annotation: Annotation)
    returns (r: Result<map<string, string>>)
    ensures r.Ok? <==> forall n | n in names :: n in defaults && defaults[n] != "" && Picked(gs, annotation, defaults[n]).Ok?
    ensures r.Ok? ==> r.value.Keys == (set n | n in names)
                      && forall n | n in names :: Ok(r.value[n]) == Picked(gs, annotation, defaults[n])
  {
    var images: map<string, string> := map[];
    for i := 0 to |names|
      invariant images.Keys == set n | n in names[..i]
      invariant forall n | n in names[..i] ::
          n in defaults && defaults[n] != "" && Picked(gs, annotation, defaults[n]) == Ok(images[n])
    {
      assert names[..i + 1] == names[..i] + [names[i]];
      var n := names[i];
      if n !in defaults || defaults[n] == "" {
        return Err;
      }
      var image;
      if |gs| != 0 {
        var name := LastOverride(gs, defaults[n]);
        image := Ok(name);
      } else {
        image := OverrideImageByAnnotation(annotation, defaults[n]);
      }
      if image.Err? {
        return Err;
      }
      images := images[n := image.value];
    }
    assert names[..|names|] == names;
    return Ok(images);
  }
}
