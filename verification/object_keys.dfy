/**
 * The object keys the scripts derive from metadata: which listed keys are
 * metadata files, where the raw SVO recordings live, where the side-by-side
 * stereo MP4s are uploaded, and under which name the fused two-view MP4 of
 * the retry script is uploaded. `pathlib` joins are modelled as "/"-joins.
 */
module ObjectKeys {
  import opened Wrappers
  import opened Text

  /** Prefix of the raw recordings (`RAW_DATA`). */
  const RawData: string := "lab-uploads"
  /** Prefix of the fused two-view MP4s (`DST` of the retry script). */
  const FusedPrefix: string := "fused-annotation-mp4s"

  /** The rebuild keeps a listed key only if it is a metadata file: a `.json` key that is not a legacy `_timestamps.json` file. */
  predicate IsMetadataKey(k: string)
  {
    !EndsWith(k, "_timestamps.json") && EndsWith(k, ".json")
  }

  /** `str(Path(RAW_DATA) / lab / rel)` */
  function RawKey(lab: string, rel: string): string
  {
    RawData + "/" + lab + "/" + rel
  }

  /** `rel.replace("MP4", "SVO").replace(".mp4", ".svo")`: the SVO recording behind an MP4. */
  function SvoRelPath(rel: string): string
  {
    ReplaceAll(ReplaceAll(rel, "MP4", "SVO"), ".mp4", ".svo")
  }

  /** `rel.replace(".mp4", "-stereo.mp4")`: the side-by-side stereo MP4 uploaded beside an MP4. */
  function StereoRelPath(rel: string): string
  {
    ReplaceAll(rel, ".mp4", "-stereo.mp4")
  }

  /** Remote key of the SVO that is downloaded for the view whose MP4 is `rel`. */
  function SvoKey(lab: string, rel: string): string
  {
    RawKey(lab, SvoRelPath(rel))
  }

  /** Remote key the stereo MP4 for the view whose MP4 is `rel` is uploaded to. */
  function StereoKey(lab: string, rel: string): string
  {
    RawKey(lab, StereoRelPath(rel))
  }

  /** Python's `s.rfind(c)`: the last index of `c` in `s`, or -1. */
  function LastIndexOf(s: string, c: char): (i: int)
    ensures -1 <= i < |s|
    ensures 0 <= i ==> s[i] == c
    ensures forall j | i < j < |s| :: s[j] != c
    decreases |s|
  {
    if s == [] then -1
    else if s[|s| - 1] == c then |s| - 1
    else LastIndexOf(s[..|s| - 1], c)
  }

  /** `Path(key).name`: the last "/"-separated component. */
  function BaseName(key: string): string
  {
    key[LastIndexOf(key, '/') + 1..]
  }

  /** `Path(key).stem`: the name without its last suffix. */
  function Stem(key: string): string
  {
    StemOfName(BaseName(key))
  }

  /** The stem of a file name: a name whose only dot is leading or trailing is kept whole. */
  function StemOfName(name: string): string
  {
    var i := LastIndexOf(name, '.');
    if 0 < i < |name| - 1 then name[..i] else name
  }

  /** The name is the part of the key after its last '/'. */
  lemma BaseNameShape(key: string)
    ensures '/' !in BaseName(key)
    ensures EndsWith(key, BaseName(key))
    ensures |BaseName(key)| < |key| ==> key[|key| - |BaseName(key)| - 1] == '/'
  {
    var i := LastIndexOf(key, '/');
    var name := key[i + 1..];
    forall j | 0 <= j < |name| ensures name[j] != '/' {
      assert name[j] == key[i + 1 + j];
    }
  }

  /** The stem is a prefix of the name; when it is shorter, a '.' follows it and no later '.' exists. */
  lemma StemShape(name: string)
    ensures StartsWith(name, StemOfName(name))
    ensures StemOfName(name) != name ==>
      var n := |StemOfName(name)|;
      0 < n < |name| - 1 && name[n] == '.' && '.' !in name[n + 1..]
  {
    var i := LastIndexOf(name, '.');
    if 0 < i < |name| - 1 {
      var rest := name[i + 1..];
      forall j | 0 <= j < |rest| ensures rest[j] != '.' {
        assert rest[j] == name[i + 1 + j];
      }
    }
  }

  /** A stem holds no '/'. */
  lemma StemHasNoSlash(key: string)
    ensures '/' !in Stem(key)
  {
    BaseNameShape(key);
    var name := BaseName(key);
    StemShape(name);
    var stem := StemOfName(name);
    forall j | 0 <= j < |stem| ensures stem[j] != '/' {
      assert stem[j] == name[j];
    }
  }

  /**
   * `str(Path(DST) / f"{Path(key).stem.split('_')[1]}.mp4")`: the upload key of
   * the fused MP4, or None where the stem has no '_' and the indexing raises
   * an IndexError.
   */
  function FusedName(key: string): Option<string>
  {
    var fields := Split(Stem(key), "_");
    if |fields| < 2 then None else Some(FusedPrefix + "/" + fields[1] + ".mp4")
  }

  lemma BorderFreeMp4()
    ensures BorderFree(".mp4")
  {
    var p := ".mp4";
    assert p[..1] != p[3..] by { assert p[..1][0] != p[3..][0]; }
    assert p[..2] != p[2..] by { assert p[..2][0] != p[2..][0]; }
    assert p[..3] != p[1..] by { assert p[..3][0] != p[1..][0]; }
  }

  /** Both replacements keep the length, so an SVO path is exactly as long as its MP4 path. */
  lemma SvoRelPathLength(rel: string)
    ensures |SvoRelPath(rel)| == |rel|
  {
    ReplaceAllLength(rel, "MP4", "SVO");
    ReplaceAllLength(ReplaceAll(rel, "MP4", "SVO"), ".mp4", ".svo");
  }

  /** An MP4 path `t + ".mp4"` maps to the SVO path of `t` followed by `.svo`. */
  lemma SvoRelPathSuffix(t: string)
    ensures SvoRelPath(t + ".mp4") == SvoRelPath(t) + ".svo"
  {
    var tail := ".mp4";
    forall i: nat | i < |t| < i + 3 ensures !OccursAt(t + tail, "MP4", i) {
      assert (t + tail)[|t|] == '.';
      if i + 3 <= |t + tail| {
        assert (t + tail)[i..i + 3][|t| - i] == '.';
      }
    }
    ReplaceAllAppend(t, tail, "MP4", "SVO");
    FreeWithoutHead(tail, "MP4");
    ReplaceAllFree(tail, "MP4", "SVO");
    BorderFreeMp4();
    ReplaceAllSuffix(ReplaceAll(t, "MP4", "SVO"), tail, ".svo");
  }

  /** An MP4 path `t + ".mp4"` maps to the stereo path of `t` followed by `-stereo.mp4`. */
  lemma StereoRelPathSuffix(t: string)
    ensures StereoRelPath(t + ".mp4") == StereoRelPath(t) + "-stereo.mp4"
  {
    BorderFreeMp4();
    ReplaceAllSuffix(t, ".mp4", "-stereo.mp4");
  }

  /**
   * For an MP4 recording, the SVO that is downloaded ends in `.svo` and the
   * stereo MP4 that is uploaded ends in `-stereo.mp4` and is a different key
   * from the MP4 itself; `StereoUploadTargets` shows the uploads go to
   * these keys.
   */
  lemma DerivedKeysOfMp4(lab: string, rel: string)
    requires EndsWith(rel, ".mp4")
    ensures EndsWith(SvoKey(lab, rel), ".svo")
    ensures EndsWith(StereoKey(lab, rel), "-stereo.mp4")
    ensures StereoKey(lab, rel) != RawKey(lab, rel)
    ensures SvoKey(lab, rel) != RawKey(lab, rel)
    ensures StereoKey(lab, rel) != SvoKey(lab, rel)
  {
    var t := rel[..|rel| - 4];
    assert rel == t + ".mp4";
    SvoRelPathSuffix(t);
    StereoRelPathSuffix(t);
    ReplaceAllLength(t, ".mp4", "-stereo.mp4");
    var prefix := RawData + "/" + lab + "/";
    assert SvoKey(lab, rel) == (prefix + SvoRelPath(t)) + ".svo";
    assert StereoKey(lab, rel) == (prefix + StereoRelPath(t)) + "-stereo.mp4";
    assert |StereoKey(lab, rel)| > |RawKey(lab, rel)|;
    assert SvoKey(lab, rel)[|SvoKey(lab, rel)| - 2] == 'v';
    assert RawKey(lab, rel)[|RawKey(lab, rel)| - 2] == 'p';
    assert StereoKey(lab, rel)[|StereoKey(lab, rel)| - 2] == 'p';
  }

  /**
   * A relpath in which `.mp4` does not occur is left as it is by the stereo
   * rewrite, so its stereo key is its own MP4 key: an upload to it would
   * overwrite that MP4.
   */
  lemma StereoKeyWithoutMp4(lab: string, rel: string)
    requires Free(rel, ".mp4")
    ensures StereoKey(lab, rel) == RawKey(lab, rel)
  {
    ReplaceAllFree(rel, ".mp4", "-stereo.mp4");
  }

  /**
   * A relpath in which neither `MP4` nor `.mp4` occurs is left as it is by
   * both rewrites, so the SVO key, the MP4 key and the stereo key coincide:
   * the upload would overwrite the very SVO the export read.
   */
  lemma DerivedKeysWithoutMp4(lab: string, rel: string)
    requires Free(rel, "MP4") && Free(rel, ".mp4")
    ensures SvoKey(lab, rel) == RawKey(lab, rel) && StereoKey(lab, rel) == RawKey(lab, rel)
  {
    ReplaceAllFree(rel, "MP4", "SVO");
    ReplaceAllFree(rel, ".mp4", ".svo");
    StereoKeyWithoutMp4(lab, rel);
  }

  /** For example, the relpath `a/clip` is uploaded over itself. */
  lemma StereoKeyOfClip(lab: string)
    ensures StereoKey(lab, "a/clip") == RawKey(lab, "a/clip")
  {
    FreeWithoutHead("a/clip", ".mp4");
    StereoKeyWithoutMp4(lab, "a/clip");
  }

  /** With a one-character separator, "no occurrence" means "the character is absent". */
  lemma FreeOfChar(s: string, c: char)
    ensures Free(s, [c]) <==> c !in s
  {
    if c in s {
      var i :| 0 <= i < |s| && s[i] == c;
      assert s[i..i + 1] == [c];
      assert OccursAt(s, [c], i);
    } else {
      FreeWithoutHead(s, [c]);
    }
  }

  /** A split yields one field exactly when the separator does not occur. */
  lemma SplitSingleField(s: string, p: string)
    requires p != []
    ensures |Split(s, p)| == 1 <==> Free(s, p)
  {
    var fields := Split(s, p);
    SplitJoin(s, p);
    SplitFieldsFree(s, p);
    if |fields| > 1 {
      var f0 := fields[0];
      assert s == f0 + p + Join(fields[1..], p);
      assert s[|f0|..|f0| + |p|] == p;
      assert OccursAt(s, p, |f0|);
    }
  }

  /**
   * The fused name exists exactly when the stem holds a '_'; it is then the
   * second '_'-separated field of the stem, a field that holds no '_', under
   * `fused-annotation-mp4s/` with the `.mp4` suffix.
   */
  lemma FusedNameShape(key: string)
    ensures FusedName(key).Some? <==> '_' in Stem(key)
    ensures FusedName(key).Some? ==>
      var fields := Split(Stem(key), "_");
      && FusedName(key).value == FusedPrefix + "/" + fields[1] + ".mp4"
      && '_' !in fields[1]
      && Join(fields, "_") == Stem(key)
  {
    var stem := Stem(key);
    var fields := Split(stem, "_");
    SplitSingleField(stem, "_");
    FreeOfChar(stem, '_');
    SplitJoin(stem, "_");
    if |fields| >= 2 {
      SplitFieldsFree(stem, "_");
      assert Free(fields[1], "_");
      FreeOfChar(fields[1], '_');
    }
  }
}
