/**
 * Rendering a minutiae table as a three-channel template image
 * (`create_template_image`, `create_template_from_file`,
 * `create_templates_from_folder`).
 *
 * Each channel covers a group of minutia types: red the bifurcations (type 1),
 * green the endings (type 2), blue the singular points (types 4 and 5) or
 * nothing. A channel's value at a pixel is the clipped sum of the smoothed
 * position field and the smoothed orientation field of that group's points,
 * each times its gain. The Gaussian smoothing is a parameter (`Blur`): it is
 * given the target size, the set of pixels at 255 in the field, the configured
 * sigma value and a pixel, and yields the smoothed value there.
 */
module TemplateRendering {
  import opened Wrappers
  import opened Text
  import opened Config
  import opened Paths
  import opened MinutiaeCodec
  import opened MinutiaeTable
  import opened PointFields

  /**
   * `ndimage.gaussian_filter(field, sigma=sqrt(s))[r, c]` for a target-sized
   * field that is 255 on the given pixels and 0 elsewhere.
   */
  type Blur = (Size, set<(int, int)>, int, int, int) -> real

  // ---------------------------------------------------------------------------
  // channels

  /** The type group of each channel; None is the empty placeholder channel. */
  function TypeGroups(includeSingular: bool): (groups: seq<Option<set<real>>>)
    ensures |groups| == 3
  {
    [Some({1.0}), Some({2.0}), if includeSingular then Some({4.0, 5.0}) else None]
  }

  /** `minutiae[np.isin(minutiae[:, 0], types)]`: the points of the given types, in order. */
  function FilterByType(points: seq<Point>, types: set<real>): seq<Point> {
    if points == [] then []
    else
      var p := points[|points| - 1];
      FilterByType(points[..|points| - 1], types) + (if p.kind in types then [p] else [])
  }

  /** The filter keeps exactly the points of the group's types, and filters of joined runs join. */
  lemma {:induction false} FilterByTypeSpec(points: seq<Point>, types: set<real>)
    ensures |FilterByType(points, types)| <= |points|
    ensures forall p :: p in FilterByType(points, types) <==> p in points && p.kind in types
    decreases |points|
  {
    if points != [] {
      var init := points[..|points| - 1];
      FilterByTypeSpec(init, types);
      assert points == init + [points[|points| - 1]];
    }
  }

  lemma {:induction false} FilterByTypeAppend(ps: seq<Point>, qs: seq<Point>, types: set<real>)
    ensures FilterByType(ps + qs, types) == FilterByType(ps, types) + FilterByType(qs, types)
    decreases |qs|
  {
    if qs == [] {
      assert ps + qs == ps;
    } else {
      var init := qs[..|qs| - 1];
      FilterByTypeAppend(ps, init, types);
      assert (ps + qs)[..|ps + qs| - 1] == ps + init;
    }
  }

  lemma {:induction false} FilterByTypeNone(others: seq<Point>, types: set<real>)
    requires forall i :: 0 <= i < |others| ==> others[i].kind !in types
    ensures FilterByType(others, types) == []
    decreases |others|
  {
    if others != [] {
      FilterByTypeNone(others[..|others| - 1], types);
    }
  }

  /** Whether a channel's group has any points, so that its fields get drawn. */
  predicate GroupHasPoints(points: seq<Point>, group: Option<set<real>>) {
    group.Some? && FilterByType(points, group.value) != []
  }

  /** The scaling a channel does can be done: its points are drawn only when the original size has no zero side. */
  predicate ChannelDrawable(points: seq<Point>, group: Option<set<real>>, orig: Size, target: Size) {
    target.h > 0 && target.w > 0 && (!GroupHasPoints(points, group) || (orig.h != 0 && orig.w != 0))
  }

  /** `np.clip(a + b, 0, 255).astype(np.uint8)`. */
  function ChannelValue(a: real, b: real): (v: int)
    ensures 0 <= v <= 255
  {
    var s := a + b;
    Trunc(if s < 0.0 then 0.0 else if s > 255.0 then 255.0 else s)
  }

  /** In range the sum is cut down to a whole number; out of range it saturates. */
  lemma ChannelValueSaturates(a: real, b: real)
    ensures a + b <= 0.0 ==> ChannelValue(a, b) == 0
    ensures 255.0 <= a + b ==> ChannelValue(a, b) == 255
    ensures 0.0 <= a + b <= 255.0 ==> ChannelValue(a, b) as real <= a + b < ChannelValue(a, b) as real + 1.0
  {
    TruncTowardZero(a + b);
  }

  /** The value of one channel at pixel (r, c). */
  function ChannelCell(points: seq<Point>, group: Option<set<real>>, orig: Size, target: Size,
                       cfg: Config, blur: Blur, draw: Draw, r: int, c: int): int
    requires ChannelDrawable(points, group, orig, target)
  {
    if !GroupHasPoints(points, group) then 0
    else
      var filtered := FilterByType(points, group.value);
      Combined(target, MarkedPixels(filtered, orig, target),
               OrientationPixels(filtered, orig, target, cfg.orientationLineLength, draw), cfg, blur, r, c)
  }

  /** Both fields smoothed, each times its gain, added up and clipped to a byte. */
  function Combined(target: Size, marked: set<(int, int)>, drawn: set<(int, int)>, cfg: Config, blur: Blur,
                    r: int, c: int): int
  {
    ChannelValue(blur(target, marked, cfg.minutiaeSigma, r, c) * cfg.minutiaeGain as real,
                 blur(target, drawn, cfg.orientationSigma, r, c) * cfg.orientationGain as real)
  }

  /** Every channel value is a byte, and it is 0 unless some point of the channel's types exists. */
  lemma ChannelCellMeaning(points: seq<Point>, group: Option<set<real>>, orig: Size, target: Size,
                           cfg: Config, blur: Blur, draw: Draw, r: int, c: int)
    requires ChannelDrawable(points, group, orig, target)
    ensures 0 <= ChannelCell(points, group, orig, target, cfg, blur, draw, r, c) <= 255
    ensures ChannelCell(points, group, orig, target, cfg, blur, draw, r, c) != 0 ==>
              group.Some? && exists i :: 0 <= i < |points| && points[i].kind in group.value
  {
    if GroupHasPoints(points, group) {
      var filtered := FilterByType(points, group.value);
      FilterByTypeSpec(points, group.value);
      assert filtered[0] in filtered;
    }
  }

  /** A channel sees only its own types: points of other types change nothing in it. */
  lemma ChannelIgnoresOtherTypes(points: seq<Point>, others: seq<Point>, types: set<real>, orig: Size, target: Size,
                                 cfg: Config, blur: Blur, draw: Draw, r: int, c: int)
    requires forall i :: 0 <= i < |others| ==> others[i].kind !in types
    requires ChannelDrawable(points, Some(types), orig, target)
    ensures ChannelDrawable(points + others, Some(types), orig, target)
    ensures ChannelCell(points + others, Some(types), orig, target, cfg, blur, draw, r, c)
         == ChannelCell(points, Some(types), orig, target, cfg, blur, draw, r, c)
  {
    FilterByTypeAppend(points, others, types);
    FilterByTypeNone(others, types);
    assert FilterByType(points + others, types) == FilterByType(points, types);
  }

  /** The pixels of a map that hold 255. */
  function OnPixels(m: array2<int>): set<(int, int)>
    reads m
  {
    set r, c | 0 <= r < m.Length0 && 0 <= c < m.Length1 && m[r, c] == 255 :: (r, c)
  }

  /** A map that is 255 exactly on a set of in-bounds pixels holds that set. */
  lemma OnPixelsOf(m: array2<int>, on: set<(int, int)>)
    requires forall px :: px in on ==> InBounds(px, Size(m.Length0, m.Length1))
    requires forall r, c :: 0 <= r < m.Length0 && 0 <= c < m.Length1 ==>
               m[r, c] == (if (r, c) in on then 255 else 0)
    ensures OnPixels(m) == on
  {
    forall px | px in on
      ensures px in OnPixels(m)
    {
      assert m[px.0, px.1] == 255;
    }
  }

  /** The position map and the orientation map of a channel's points, read as the pixels they set. */
  method DrawFields(filtered: seq<Point>, orig: Size, target: Size, lineLength: int, draw: Draw)
    returns (minutiaeOn: set<(int, int)>, orientationOn: set<(int, int)>)
    requires filtered != [] && Scalable(orig, target)
    ensures minutiaeOn == MarkedPixels(filtered, orig, target)
    ensures orientationOn == OrientationPixels(filtered, orig, target, lineLength, draw)
  {
    var minutiaeMap := CreateMinutiaeMap(filtered, orig, target);
    var orientationMap := CreateOrientationMap(filtered, orig, target, lineLength, draw);
    ghost var marked := MarkedPixels(filtered, orig, target);
    ghost var drawn := OrientationPixels(filtered, orig, target, lineLength, draw);
    forall px | px in marked
      ensures InBounds(px, target)
    {
      MarkedPixelsSpec(filtered, orig, target, px);
    }
    forall px | px in drawn
      ensures InBounds(px, target)
    {
      OrientationPixelsInBounds(filtered, orig, target, lineLength, draw, px);
    }
    OnPixelsOf(minutiaeMap, marked);
    OnPixelsOf(orientationMap, drawn);
    minutiaeOn := OnPixels(minutiaeMap);
    orientationOn := OnPixels(orientationMap);
  }

  /**
   * One channel of `create_template_image`: zero for the placeholder or a group
   * without points, otherwise the clipped sum of both smoothed fields.
   */
  method CreateChannel(points: seq<Point>, group: Option<set<real>>, orig: Size, target: Size,
                       cfg: Config, blur: Blur, draw: Draw) returns (channel: array2<int>)
    requires ChannelDrawable(points, group, orig, target)
    ensures channel.Length0 == target.h && channel.Length1 == target.w
    ensures forall r, c :: 0 <= r < target.h && 0 <= c < target.w ==>
              channel[r, c] == ChannelCell(points, group, orig, target, cfg, blur, draw, r, c)
  {
    if group.None? {
      channel := new int[target.h, target.w]((r, c) => 0);
      return;
    }
    var filtered := FilterByType(points, group.value);
    if filtered == [] {
      channel := new int[target.h, target.w]((r, c) => 0);
      return;
    }
    var minutiaeOn, orientationOn := DrawFields(filtered, orig, target, cfg.orientationLineLength, draw);
    channel := new int[target.h, target.w]((r, c) => Combined(target, minutiaeOn, orientationOn, cfg, blur, r, c));
  }

  // ---------------------------------------------------------------------------
  // the template image

  /** Some channel has points to draw. */
  predicate HasChannelPoints(points: seq<Point>, includeSingular: bool) {
    exists k :: 0 <= k < 3 && GroupHasPoints(points, TypeGroups(includeSingular)[k])
  }

  /** The scaling cannot divide by zero: the original size has no zero side, or no channel draws anything. */
  predicate Renders(points: seq<Point>, orig: Size, includeSingular: bool) {
    (orig.h != 0 && orig.w != 0) || !HasChannelPoints(points, includeSingular)
  }

  /** An image is the template of the points: target-sized, three channels, each as `ChannelCell` says. */
  predicate TemplateOf(image: array3<int>, points: seq<Point>, orig: Size, target: Size,
                       includeSingular: bool, cfg: Config, blur: Blur, draw: Draw)
    requires target.h > 0 && target.w > 0 && Renders(points, orig, includeSingular)
    reads image
  {
    image.Length0 == target.h && image.Length1 == target.w && image.Length2 == 3 &&
    forall r, c, k :: 0 <= r < target.h && 0 <= c < target.w && 0 <= k < 3 ==>
      image[r, c, k] == ChannelCell(points, TypeGroups(includeSingular)[k], orig, target, cfg, blur, draw, r, c)
  }

  /**
   * `create_template_image`: the three channels, built in turn and stacked.
   * Without a configuration the defaults apply.
   */
  method CreateTemplateImage(points: seq<Point>, orig: Size, target: Size, includeSingular: bool,
                             config: Option<Config>, blur: Blur, draw: Draw) returns (image: array3<int>)
    requires target.h > 0 && target.w > 0
    requires Renders(points, orig, includeSingular)
    ensures TemplateOf(image, points, orig, target, includeSingular, config.GetOr(DefaultConfig()), blur, draw)
  {
    var cfg := config.GetOr(DefaultConfig());
    var groups := TypeGroups(includeSingular);
    var channels: seq<array2<int>> := [];
    for k := 0 to 3
      invariant |channels| == k
      invariant forall j :: 0 <= j < k ==> channels[j].Length0 == target.h && channels[j].Length1 == target.w
      invariant forall j, r, c :: 0 <= j < k && 0 <= r < target.h && 0 <= c < target.w ==>
                  channels[j][r, c] == ChannelCell(points, groups[j], orig, target, cfg, blur, draw, r, c)
    {
      var channel := CreateChannel(points, groups[k], orig, target, cfg, blur, draw);
      channels := channels + [channel];
    }
    image := new int[target.h, target.w, 3]((r, c, k)
      requires 0 <= r < target.h && 0 <= c < target.w && 0 <= k < 3
      reads channels
      => channels[k][r, c]);
  }

  // ---------------------------------------------------------------------------
  // from a file

  /** The points of a loaded table, with column 3 turned into radians. */
  function TablePoints(rows: seq<seq<real>>): (points: seq<Point>)
    requires forall i :: 0 <= i < |rows| ==> |rows[i]| >= 4
    ensures |points| == |rows|
  {
    seq(|rows|, i requires 0 <= i < |rows| => Point(rows[i][0], rows[i][1], rows[i][2], rows[i][3] * Pi / 180.0))
  }

  /** The points a minutiae file holds; none when it cannot be loaded. */
  function FilePoints(text: Option<string>): seq<Point> {
    match LoadedTable(text)
    case None => []
    case Some(rows) => TablePoints(rows)
  }

  /** The columns of a table array read as points. */
  function ArrayPoints(data: array2<real>): seq<Point>
    requires data.Length1 >= 4
    reads data
  {
    seq(data.Length0, i requires 0 <= i < data.Length0 reads data => Point(data[i, 0], data[i, 1], data[i, 2], data[i, 3]))
  }

  /** The points read off the array `parse_minutiae_file` returns are the table's points. */
  lemma ArrayPointsOfTable(data: array2<real>, rows: seq<seq<real>>)
    requires TableShaped(rows)
    requires data.Length0 == |rows| && data.Length1 == |rows[0]|
    requires forall i, j :: 0 <= i < data.Length0 && 0 <= j < data.Length1 ==>
               data[i, j] == (if j == 3 then rows[i][j] * Pi / 180.0 else rows[i][j])
    ensures ArrayPoints(data) == TablePoints(rows)
  {
    forall i | 0 <= i < |rows|
      ensures ArrayPoints(data)[i] == TablePoints(rows)[i]
    {
      assert data[i, 0] == rows[i][0] && data[i, 1] == rows[i][1] && data[i, 2] == rows[i][2];
    }
  }

  /**
   * `create_template_from_file`: None when the file yields no table, or when
   * the scaling divides by zero; otherwise the template of its points. Without
   * an original size the target size stands in.
   */
  method CreateTemplateFromFile(text: Option<string>, target: Size, orig: Option<Size>, includeSingular: bool,
                                config: Option<Config>, blur: Blur, draw: Draw) returns (image: Option<array3<int>>)
    requires target.h > 0 && target.w > 0
    ensures image.Some? <==>
              LoadedTable(text).Some? && Renders(FilePoints(text), orig.GetOr(target), includeSingular)
    ensures image.Some? ==>
              TemplateOf(image.value, FilePoints(text), orig.GetOr(target), target, includeSingular,
                         config.GetOr(DefaultConfig()), blur, draw)
  {
    var data := ParseMinutiaeFile(text);
    if data.Length0 == 0 {
      return None;
    }
    var size := orig.GetOr(target);
    var points := ArrayPoints(data);
    ArrayPointsOfTable(data, LoadedTable(text).value);
    if !Renders(points, size, includeSingular) {
      // the ZeroDivisionError of the scaling is caught
      return None;
    }
    var template := CreateTemplateImage(points, size, target, includeSingular, config, blur, draw);
    image := Some(template);
  }

  /** The converter writes only bifurcations and endings, so a converted file's blue channel is always empty. */
  lemma ConvertedHasNoSingularPoints(ms: seq<Minutia>)
    requires ms != []
    ensures var points := FilePoints(Some(Render(FormatAll(ms), LineTerminator)));
            (forall i :: 0 <= i < |points| ==> points[i].kind == 1.0 || points[i].kind == 2.0) &&
            !GroupHasPoints(points, Some({4.0, 5.0}))
  {
    ReadBackRecords(ms);
    RecordKinds(ms);
    FilterByTypeNone(TablePoints(RowsOf(ms)), {4.0, 5.0});
  }

  /** Each point read back from records has the record's type code as its kind. */
  lemma RecordKinds(ms: seq<Minutia>)
    ensures var points := TablePoints(RowsOf(ms));
            forall i :: 0 <= i < |points| ==> points[i].kind == 1.0 || points[i].kind == 2.0
  {
    var points := TablePoints(RowsOf(ms));
    forall i | 0 <= i < |points|
      ensures points[i].kind == ms[i].kind.Code() as real
    {
      assert RowsOf(ms)[i] == RowOf(ms[i]);
    }
  }

  // ---------------------------------------------------------------------------
  // a folder of files

  /** One entry of the input directory: its name and its contents, or None when it cannot be read. */
  datatype TxtEntry = TxtEntry(name: string, text: Option<string>)

  /** The entries whose name ends in `.txt`, in listing order. */
  function TxtFiles(entries: seq<TxtEntry>): seq<TxtEntry> {
    if entries == [] then []
    else
      var e := entries[|entries| - 1];
      TxtFiles(entries[..|entries| - 1]) + (if EndsWith(e.name, ".txt") then [e] else [])
  }

  /** Where the template of an entry is saved. */
  function PngPath(outputDir: string, name: string): string {
    JoinPath(outputDir, SplitExtRoot(name) + ".png")
  }

  /** Whether a template is made for an entry: with the target size as original size, exactly when it loads. */
  predicate MakesTemplate(e: TxtEntry) {
    LoadedTable(e.text).Some?
  }

  /** Whether an entry's template is saved: it is made, and saving it to its path succeeds. */
  predicate Saved(e: TxtEntry, outputDir: string, saves: string -> bool) {
    MakesTemplate(e) && saves(PngPath(outputDir, e.name))
  }

  /** The outputs of the entries `ok` accepts, in order. */
  function Selected(files: seq<TxtEntry>, ok: TxtEntry -> bool, out: TxtEntry -> string): seq<string> {
    if files == [] then []
    else
      var e := files[|files| - 1];
      Selected(files[..|files| - 1], ok, out) + (if ok(e) then [out(e)] else [])
  }

  lemma {:induction false} SelectedBound(files: seq<TxtEntry>, ok: TxtEntry -> bool, out: TxtEntry -> string)
    ensures |Selected(files, ok, out)| <= |files|
    decreases |files|
  {
    if files != [] {
      SelectedBound(files[..|files| - 1], ok, out);
    }
  }

  lemma {:induction false} SelectedSpec(files: seq<TxtEntry>, ok: TxtEntry -> bool, out: TxtEntry -> string, x: string)
    ensures x in Selected(files, ok, out) <==> exists i :: 0 <= i < |files| && ok(files[i]) && x == out(files[i])
    decreases |files|
  {
    if files != [] {
      var init := files[..|files| - 1];
      SelectedSpec(init, ok, out, x);
      if x in Selected(init, ok, out) {
        var i :| 0 <= i < |init| && ok(init[i]) && x == out(init[i]);
        assert files[i] == init[i];
      }
      if exists i :: 0 <= i < |files| && ok(files[i]) && x == out(files[i]) {
        var i :| 0 <= i < |files| && ok(files[i]) && x == out(files[i]);
        if i < |init| {
          assert init[i] == files[i];
        }
      }
    }
  }

  lemma {:induction false} SelectedAll(files: seq<TxtEntry>, ok: TxtEntry -> bool, out: TxtEntry -> string)
    ensures |Selected(files, ok, out)| == |files| <==> forall i :: 0 <= i < |files| ==> ok(files[i])
    decreases |files|
  {
    if files != [] {
      var init := files[..|files| - 1];
      SelectedAll(init, ok, out);
      SelectedBound(init, ok, out);
      assert forall i :: 0 <= i < |init| ==> init[i] == files[i];
    }
  }

  /** The test `create_templates_from_folder` applies to each entry. */
  function SavedBy(outputDir: string, saves: string -> bool): TxtEntry -> bool {
    (e: TxtEntry) => Saved(e, outputDir, saves)
  }

  /** Where each entry's template goes. */
  function PngOf(outputDir: string): TxtEntry -> string {
    (e: TxtEntry) => PngPath(outputDir, e.name)
  }

  /** The paths saved for the files, in order; `saves` tells whether saving to a path succeeds. */
  function SavedPaths(files: seq<TxtEntry>, outputDir: string, saves: string -> bool): seq<string> {
    Selected(files, SavedBy(outputDir, saves), PngOf(outputDir))
  }

  /** Never more saves than files. */
  lemma SavedPathsBound(files: seq<TxtEntry>, outputDir: string, saves: string -> bool)
    ensures |SavedPaths(files, outputDir, saves)| <= |files|
  {
    SelectedBound(files, SavedBy(outputDir, saves), PngOf(outputDir));
  }

  /** A path is saved exactly when it belongs to a file that loads and whose save succeeds. */
  lemma SavedPathsSpec(files: seq<TxtEntry>, outputDir: string, saves: string -> bool, path: string)
    ensures path in SavedPaths(files, outputDir, saves) <==>
              exists i :: 0 <= i < |files| && Saved(files[i], outputDir, saves) && path == PngPath(outputDir, files[i].name)
  {
    SelectedSpec(files, SavedBy(outputDir, saves), PngOf(outputDir), path);
  }

  /** Every file gets its template saved exactly when every file loads and every save succeeds. */
  lemma SavedPathsAll(files: seq<TxtEntry>, outputDir: string, saves: string -> bool)
    ensures |SavedPaths(files, outputDir, saves)| == |files| <==>
              forall i :: 0 <= i < |files| ==> Saved(files[i], outputDir, saves)
  {
    SelectedAll(files, SavedBy(outputDir, saves), PngOf(outputDir));
  }

  /** One more file adds its path exactly when its template is saved. */
  lemma SavedPathsStep(files: seq<TxtEntry>, i: nat, outputDir: string, saves: string -> bool)
    requires i < |files|
    ensures SavedPaths(files[..i + 1], outputDir, saves)
         == SavedPaths(files[..i], outputDir, saves)
            + (if Saved(files[i], outputDir, saves) then [PngPath(outputDir, files[i].name)] else [])
  {
    assert files[..i + 1][..i] == files[..i];
  }

  /** `<stem>.txt` is saved as `<stem>.png`. */
  lemma PngOfTxt(outputDir: string, stem: string, j: nat)
    requires j < |stem| && stem[j] != '.'
    ensures PngPath(outputDir, stem + ".txt") == JoinPath(outputDir, stem + ".png")
  {
    assert stem + ".txt" == stem + "." + "txt";
    StemOfExtension(stem, j, "txt");
  }

  /** Every file the converter accepts yields a template. */
  lemma ConvertedMakesTemplate(name: string, minText: string, threshold: real)
    requires Converted(minText, threshold, LineTerminator).Some?
    ensures MakesTemplate(TxtEntry(name, Converted(minText, threshold, LineTerminator)))
  {
    ConvertedReadsBack(minText, threshold);
  }

  /**
   * One entry of `create_templates_from_folder`: the template is created with
   * the target size standing in for the original size, then saved under the
   * entry's stem with `.png`; the path is returned when both succeed.
   */
  method CreateAndSave(e: TxtEntry, outputDir: string, target: Size, includeSingular: bool,
                       cfg: Config, blur: Blur, draw: Draw, saves: string -> bool) returns (savedPath: Option<string>)
    requires target.h > 0 && target.w > 0
    ensures savedPath == if Saved(e, outputDir, saves) then Some(PngPath(outputDir, e.name)) else None
  {
    var image := CreateTemplateFromFile(e.text, target, None, includeSingular, Some(cfg), blur, draw);
    if image.None? {
      return None;
    }
    var outputPath := PngPath(outputDir, e.name);
    if saves(outputPath) {
      savedPath := Some(outputPath);
    } else {
      savedPath := None;
    }
  }

  /**
   * `create_templates_from_folder`: one attempt per `.txt` entry, counting the
   * templates saved. The original size is not known, so the target size stands
   * in for it.
   */
  method CreateTemplatesFromFolder(entries: seq<TxtEntry>, outputDir: string, target: Size, includeSingular: bool,
                                   config: Option<Config>, blur: Blur, draw: Draw, saves: string -> bool)
    returns (successful: nat, total: nat, saved: seq<string>)
    requires target.h > 0 && target.w > 0
    ensures total == |TxtFiles(entries)|
    ensures saved == SavedPaths(TxtFiles(entries), outputDir, saves)
    ensures successful == |saved| <= total
  {
    var cfg := config.GetOr(DefaultConfig());
    var files := TxtFiles(entries);
    successful, total, saved := 0, 0, [];
    for i := 0 to |files|
      invariant total == i
      invariant saved == SavedPaths(files[..i], outputDir, saves)
      invariant successful == |saved|
    {
      SavedPathsStep(files, i, outputDir, saves);
      total := total + 1;
      var savedPath := CreateAndSave(files[i], outputDir, target, includeSingular, cfg, blur, draw, saves);
      if savedPath.Some? {
        successful := successful + 1;
        saved := saved + [savedPath.value];
      }
    }
    assert files[..|files|] == files;
    SavedPathsBound(files, outputDir, saves);
  }
}
