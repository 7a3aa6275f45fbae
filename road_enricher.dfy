/**
 * The two naming helpers of RoadEnricher: the path each target's JSON file
 * is written to, and the local file name of a road's image.
 */
module RoadEnricher {
  import opened Common
  import opened PhpStrings
  import UsDot = UsDotScenicBywaysSource
  import ArcGis = ArcGisSource

  /** createOutputFilePath: `{outputPath}/data/{sourceId}/{fileName}.json`. */
  function OutputFilePath(outputPath: string, sourceId: string, fileName: string): (r: string)
    ensures |r| == |outputPath| + |sourceId| + |fileName| + 12
    ensures r[..|outputPath|] == outputPath && r[|r| - 5..] == ".json"
  {
    outputPath + "/data/" + sourceId + "/" + fileName + ".json"
  }

  /** The bytes the file name keeps: `[a-zA-Z0-9_-]`. */
  predicate IsSafe(c: char) {
    IsLetter(c) || ('0' <= c <= '9') || c == '_' || c == '-'
  }

  /** The preg_replace of createImageFileName: every other byte becomes '_'. */
  function SafeName(name: string): (r: string)
    ensures |r| == |name|
    ensures forall i :: 0 <= i < |r| ==> IsSafe(r[i])
    ensures forall i :: 0 <= i < |r| && IsSafe(name[i]) ==> r[i] == name[i]
  {
    seq(|name|, i requires 0 <= i < |name| => if IsSafe(name[i]) then name[i] else '_')
  }

  /**
   * pathinfo(..., PATHINFO_EXTENSION): what follows the last '.' of the
   * basename, "" when it has none.
   */
  function Extension(path: string): (r: string)
    ensures '/' !in r && '.' !in r
  {
    var base := Basename(path);
    if '.' in base then
      var e := AfterLast(base, '.');
      assert forall c :: c in e ==> c in base;
      e
    else ""
  }

  /** `pathinfo(...) ?: 'jpg'`: the extension of the URL's path, "jpg" when it is falsy or there is no path. */
  function ExtensionOrJpg(urlPath: Option<string>): (r: string)
    ensures r != [] && '/' !in r && '.' !in r
    ensures urlPath.Some? && !PhpEmpty(Extension(urlPath.value)) ==> r == Extension(urlPath.value)
  {
    var ext := if urlPath.Some? then Extension(urlPath.value) else "";
    if PhpEmpty(ext) then "jpg" else ext
  }

  /**
   * createImageFileName: the safe road name, a dot and the extension. The
   * only dot is the one after the name, so name and extension can be told
   * apart again, and the result is a plain file name without any slash.
   */
  function ImageFileName(urlPath: Option<string>, roadName: string): (r: string)
    ensures |r| == |roadName| + 1 + |ExtensionOrJpg(urlPath)|
    ensures r[..|roadName|] == SafeName(roadName) && r[|roadName| + 1..] == ExtensionOrJpg(urlPath)
    ensures forall i :: 0 <= i < |r| ==> (r[i] == '.' <==> i == |roadName|)
    ensures forall i :: 0 <= i < |r| ==> r[i] != '/'
  {
    DotSeparates(SafeName(roadName), ExtensionOrJpg(urlPath));
    SafeName(roadName) + "." + ExtensionOrJpg(urlPath)
  }

  lemma DotSeparates(safe: string, ext: string)
    requires forall i :: 0 <= i < |safe| ==> IsSafe(safe[i])
    requires '/' !in ext && '.' !in ext
    ensures var r := safe + "." + ext;
      && r[..|safe|] == safe && r[|safe| + 1..] == ext
      && (forall i :: 0 <= i < |r| ==> (r[i] == '.' <==> i == |safe|))
      && (forall i :: 0 <= i < |r| ==> r[i] != '/')
  {
    var r := safe + "." + ext;
    assert r[..|safe|] == safe;
    assert r[|safe| + 1..] == ext;
    forall i | 0 <= i < |r|
      ensures (r[i] == '.' <==> i == |safe|) && r[i] != '/'
    {
      if i < |safe| {
        assert r[i] == safe[i] && IsSafe(safe[i]);
      } else if i > |safe| {
        assert r[i] == ext[i - |safe| - 1];
      }
    }
  }

  // ---------------------------------------------------------------------
  // Properties
  // ---------------------------------------------------------------------

  /** Sanitising a sanitised name changes nothing. */
  lemma SafeNameIdempotent(name: string)
    ensures SafeName(SafeName(name)) == SafeName(name)
  {
  }

  /** Names that differ only in bytes outside the allowed set share an image file name. */
  lemma UnsafeBytesCollide()
    ensures ImageFileName(None, "Route 66") == ImageFileName(None, "Route.66") == "Route_66.jpg"
  {
    assert ExtensionOrJpg(None) == "jpg";
    assert SafeName("Route 66") == "Route_66";
    assert SafeName("Route.66") == "Route_66";
  }

  /** The output path tells its file name apart: two different file names never share a path. */
  lemma OutputPathInjective(outputPath: string, sourceId: string, f1: string, f2: string)
    requires OutputFilePath(outputPath, sourceId, f1) == OutputFilePath(outputPath, sourceId, f2)
    ensures f1 == f2
  {
    var prefix := outputPath + "/data/" + sourceId + "/";
    var p1, p2 := OutputFilePath(outputPath, sourceId, f1), OutputFilePath(outputPath, sourceId, f2);
    assert p1 == prefix + f1 + ".json" && p2 == prefix + f2 + ".json";
    assert f1 == p1[|prefix|..|p1| - 5];
    assert f2 == p2[|prefix|..|p2| - 5];
  }

  /** Each ArcGIS state has its own output file. */
  lemma ArcGisTargetsDoNotCollide(outputPath: string, c1: string, c2: string)
    requires c1 != c2
    ensures OutputFilePath(outputPath, "arcgis", ArcGis.GetTargetOutFilename(c1))
         != OutputFilePath(outputPath, "arcgis", ArcGis.GetTargetOutFilename(c2))
  {
    if OutputFilePath(outputPath, "arcgis", c1) == OutputFilePath(outputPath, "arcgis", c2) {
      OutputPathInjective(outputPath, "arcgis", c1, c2);
    }
  }

  /**
   * Every Colorado byway layer (13 to 21) is written to the same file,
   * `{outputPath}/data/us-dot/CO.json`, so of several such layers the one
   * processed last replaces the others.
   */
  lemma ColoradoLayersShareOutputFile(outputPath: string, id: int)
    requires 13 <= id <= 21
    ensures UsDot.GetTargetOutFilename(id) == Ok("CO")
    ensures OutputFilePath(outputPath, "us-dot", UsDot.GetTargetOutFilename(id).value) == outputPath + "/data/us-dot/CO.json"
  {
    UsDot.ColoradoLayersShareFilename();
    ColoradoPath(outputPath);
  }

  lemma ColoradoPath(outputPath: string)
    ensures OutputFilePath(outputPath, "us-dot", "CO") == outputPath + "/data/us-dot/CO.json"
  {
  }
}
