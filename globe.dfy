/** The globe canvas: one pin per bundled story in the theme's colour, the
    recolouring and atmosphere swap on a theme change, and the click handler's
    search for the pin data above the object a click hit. */
module Globe {
  import opened Stories

  // ---------------------------------------------------------------------------
  // Colours

  const DefaultPointSize: real := 0.6

  /** A pin's colour under a theme. */
  function ThemeColor(t: Theme): (c: string)
    ensures c == "orange" <==> t == Historical
    ensures c == "cyan" <==> t == SciFi
    ensures c == "magenta" <==> t == Cultural
  {
    assert "orange"[0] != "magenta"[0] && "cyan"[0] != "magenta"[0];
    match t
    case Historical => "orange"
    case SciFi => "cyan"
    case Cultural => "magenta"
  }

  /** The atmosphere colour a theme change sets. */
  function ThemeAtmosphere(t: Theme): (c: string)
    ensures c == "#0ea5e9" <==> t == SciFi
    ensures c == "#b87d3c" <==> t == Historical
    ensures c == "#8b5cf6" <==> t == Cultural
  {
    assert "#0ea5e9"[1] != "#8b5cf6"[1] && "#b87d3c"[1] != "#8b5cf6"[1];
    match t
    case SciFi => "#0ea5e9"
    case Historical => "#b87d3c"
    case Cultural => "#8b5cf6"
  }

  /** The atmosphere colour the globe is built with. */
  function MountAtmosphere(t: Theme): (c: string)
    ensures c == "#0ea5e9" <==> t == SciFi
    ensures c == "#2a6f97" <==> t != SciFi
  {
    if t == SciFi then "#0ea5e9" else "#2a6f97"
  }

  /** The two atmosphere mappings agree only on the Sci-Fi theme. */
  lemma AtmospheresAgreeOnlyForSciFi(t: Theme)
    ensures ThemeAtmosphere(t) == MountAtmosphere(t) <==> t == SciFi
  {
  }

  // ---------------------------------------------------------------------------
  // Points

  /** The pin built for a story: the defaults `size` 0.6 and the theme colour,
      with every field the story itself carries taking precedence. */
  function PointOf(s: Story, t: Theme): (p: Story)
    ensures p.(size := s.size, color := s.color) == s
    ensures p.size == if s.size.Some? then s.size else Some(DefaultPointSize)
    ensures p.color == if s.color.Some? then s.color else Some(ThemeColor(t))
  {
    s.(size := Some(s.size.GetOr(DefaultPointSize)), color := Some(s.color.GetOr(ThemeColor(t))))
  }

  /** The globe's points: one per bundled story, in bundled order. */
  function BuildPoints(bundled: seq<Story>, t: Theme): (points: seq<Story>)
    ensures |points| == |bundled|
    ensures forall i :: 0 <= i < |bundled| ==> points[i] == PointOf(bundled[i], t)
  {
    seq(|bundled|, i requires 0 <= i < |bundled| => PointOf(bundled[i], t))
  }

  /** Every point carries the id of the bundled story at the same position and
      a size and colour; no other story becomes a point. */
  lemma PointsMirrorBundled(bundled: seq<Story>, t: Theme, p: Story)
    requires p in BuildPoints(bundled, t)
    ensures p.size.Some? && p.color.Some?
    ensures exists i :: 0 <= i < |bundled| && p.id == bundled[i].id && p.title == bundled[i].title
  {
    var points := BuildPoints(bundled, t);
    var i :| 0 <= i < |points| && points[i] == p;
    assert p.id == bundled[i].id;
  }

  /** The points after a theme change: same number and order, every field but
      `color` kept, `color` set to the theme colour. */
  function Recolor(points: seq<Story>, t: Theme): (r: seq<Story>)
    ensures |r| == |points|
    ensures forall i :: 0 <= i < |points| ==> r[i].color == Some(ThemeColor(t))
    ensures forall i :: 0 <= i < |points| ==> r[i].(color := points[i].color) == points[i]
  {
    seq(|points|, i requires 0 <= i < |points| => points[i].(color := Some(ThemeColor(t))))
  }

  /** Only the last of two recolourings matters; in particular recolouring twice
      with the same theme is recolouring once. */
  lemma RecolorLastThemeWins(points: seq<Story>, t1: Theme, t2: Theme)
    ensures Recolor(Recolor(points, t1), t2) == Recolor(points, t2)
    ensures Recolor(Recolor(points, t2), t2) == Recolor(points, t2)
  {
    var a, b := Recolor(Recolor(points, t1), t2), Recolor(points, t2);
    forall i | 0 <= i < |points| ensures a[i] == b[i] {
      assert a[i].(color := Recolor(points, t1)[i].color) == Recolor(points, t1)[i];
    }
  }

  /** The points after a series of theme changes, applied in order: only
      the last theme counts, and the number of points is kept. */
  function RecolorAll(points: seq<Story>, themes: seq<Theme>): (r: seq<Story>)
    ensures |r| == |points|
    ensures themes == [] ==> r == points
    ensures themes != [] ==> r == Recolor(points, themes[|themes| - 1])
    decreases |themes|
  {
    if themes == [] then points
    else
      var earlier := themes[..|themes| - 1];
      var last := themes[|themes| - 1];
      RecolorLastThemeWins(points, if earlier == [] then last else earlier[|earlier| - 1], last);
      Recolor(RecolorAll(points, earlier), last)
  }

  /** When no bundled story carries its own colour, recolouring the points to
      a theme gives the points that theme would have built. */
  lemma RecolorMatchesBuild(bundled: seq<Story>, t1: Theme, t2: Theme)
    requires forall i :: 0 <= i < |bundled| ==> bundled[i].color.None?
    ensures Recolor(BuildPoints(bundled, t1), t2) == BuildPoints(bundled, t2)
  {
    var a, b := Recolor(BuildPoints(bundled, t1), t2), BuildPoints(bundled, t2);
    forall i | 0 <= i < |bundled| ensures a[i] == b[i] {
      assert a[i].(color := BuildPoints(bundled, t1)[i].color) == BuildPoints(bundled, t1)[i];
    }
  }

  // ---------------------------------------------------------------------------
  // The globe object and the canvas holding it

  /** The state the canvas sets on the three-globe object. */
  class ThreeGlobe {
    var atmosphereColor: string
    var pointsData: Option<seq<Story>>

    constructor (atmosphere: string, points: seq<Story>)
      ensures atmosphereColor == atmosphere && pointsData == Some(points)
    {
      atmosphereColor := atmosphere;
      pointsData := Some(points);
    }
  }

  /** The canvas's reference to its globe; null until the canvas is mounted. */
  class GlobeCanvas {
    var globe: ThreeGlobe?

    constructor ()
      ensures globe == null
    {
      globe := null;
    }

    /** The mount effect: build the globe with the mount atmosphere and one
        point per bundled story. */
    method Mount(bundled: seq<Story>, theme: Theme)
      modifies this
      ensures fresh(globe) && globe != null
      ensures globe.atmosphereColor == MountAtmosphere(theme)
      ensures globe.pointsData == Some(BuildPoints(bundled, theme))
    {
      globe := new ThreeGlobe(MountAtmosphere(theme), BuildPoints(bundled, theme));
    }

    /** The theme effect: nothing before the globe exists; otherwise swap the
        atmosphere colour and recolour the points, an absent point list being
        read as empty. */
    method OnThemeChange(theme: Theme)
      modifies globe
      ensures globe == old(globe)
      ensures globe != null ==> globe.atmosphereColor == ThemeAtmosphere(theme)
      ensures globe != null ==> globe.pointsData == Some(Recolor(old(globe.pointsData).GetOr([]), theme))
    {
      if globe == null {
        return;
      }
      var g := globe;
      g.atmosphereColor := ThemeAtmosphere(theme);
      var points := g.pointsData.GetOr([]);
      g.pointsData := Some(Recolor(points, theme));
    }

    /** The first commit: the mount effect runs, then the theme effect, so the
        mount atmosphere is replaced at once by the theme's. */
    method FirstRender(bundled: seq<Story>, theme: Theme)
      modifies this
      ensures fresh(globe) && globe != null
      ensures globe.atmosphereColor == ThemeAtmosphere(theme)
      ensures globe.pointsData == Some(Recolor(BuildPoints(bundled, theme), theme))
    {
      Mount(bundled, theme);
      OnThemeChange(theme);
    }
  }

  // ---------------------------------------------------------------------------
  // Clicks

  /** A scene-graph object, reduced to the pin data three-globe may attach. */
  datatype SceneNode = SceneNode(data: Option<Story>)

  /** The data of the nearest object carrying data on an ancestor chain; the
      chain lists the hit object first, then its parent, up to the root. */
  function NearestData(chain: seq<SceneNode>): (d: Option<Story>)
    ensures d.None? <==> forall k :: 0 <= k < |chain| ==> chain[k].data.None?
    ensures d.Some? ==> exists k :: 0 <= k < |chain| && chain[k].data == d
                                   && forall j :: 0 <= j < k ==> chain[j].data.None?
    decreases |chain|
  {
    if chain == [] then None
    else if chain[0].data.Some? then chain[0].data
    else
      var d := NearestData(chain[1..]);
      assert forall k :: 1 <= k < |chain| ==> chain[k] == chain[1..][k - 1];
      d
  }

  /** The click handler without the camera flight: the data the pin callback
      receives, or None when it is not called. `hit` is the ancestor chain of
      the first object the ray meets, None when it meets none. */
  method ClickedPinData(hit: Option<seq<SceneNode>>) returns (pin: Option<Story>)
    ensures hit.None? ==> pin.None?
    ensures hit.Some? ==> pin == NearestData(hit.value)
  {
    pin := None;
    if hit.None? {
      return;
    }
    var chain := hit.value;
    var i := 0;
    while i < |chain| && chain[i].data.None?
      invariant 0 <= i <= |chain|
      invariant NearestData(chain[i..]) == NearestData(chain)
    {
      assert chain[i..][1..] == chain[i + 1..];
      i := i + 1;
    }
    if i < |chain| && chain[i].data.Some? {
      pin := chain[i].data;
    }
  }
}
