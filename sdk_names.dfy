/** The naming convention of staged SDK archives, `<platform>-SDK@<version>.zip`,
    as `ProcessSDK.init` recognises and splits it (sdk/process/index.ts and its
    earlier copy sdk/processSDK.ts use the same test and the same split). */
module SdkNames {
  import opened Strings

  /** `ProcessSDK.SDK_ZIP_IDENTITY`. */
  const Identity := "-SDK@"

  /** `"." + ProcessSDK.SDK_ZIP_FILE`, compared after lower-casing. */
  const ZipSuffix := ".zip"

  /** The platform and version a staged archive name carries. */
  datatype SdkInfo = SdkInfo(platform: string, version: string)

  /** The three-part test of `init`: not a skipped name, contains the identity,
      and ends with ".zip" in any letter case. */
  predicate IsCandidate(name: string, skips: seq<string>) {
    name !in skips && Contains(name, Identity) && EndsWith(ToLower(name), ZipSuffix)
  }

  /** The name without its last four characters (the extension). */
  function Stem(name: string): string
    requires |name| >= |ZipSuffix|
  {
    name[..|name| - |ZipSuffix|]
  }

  /** `name.substring(0, name.length - 4).split("-SDK@")` destructured into its
      first two parts. A candidate always gives at least two parts, so the
      version is never `undefined`. The platform is the text before the first
      identity and the version runs to the next identity or to the end. */
  function Parse(name: string): (info: SdkInfo)
    requires Contains(name, Identity) && EndsWith(ToLower(name), ZipSuffix)
    ensures !Contains(info.platform, Identity) && !Contains(info.version, Identity)
    ensures Stem(name) == info.platform + Identity + info.version
         || StartsWith(Stem(name), info.platform + Identity + info.version + Identity)
  {
    StemKeepsIdentity(name);
    var parts := SplitOn(Stem(name), Identity);
    SplitTwoPieces(Stem(name), Identity);
    SplitPiecesFree(Stem(name), Identity);
    SdkInfo(parts[0], parts[1])
  }

  /** The identity never overlaps the ".zip" tail: its last character '@' is
      none of '.', 'z', 'i', 'p' in any case, so the stem still contains it. */
  lemma StemKeepsIdentity(name: string)
    requires Contains(name, Identity) && EndsWith(ToLower(name), ZipSuffix)
    ensures Contains(Stem(name), Identity)
  {
    var i: nat :| i <= |name| && OccursAt(name, Identity, i);
    assert name[i..i + 5][4] == '@';
    LoweredTailHasNoAt(name, ToLower(name));
    assert i + 5 <= |Stem(name)|;
    assert Stem(name)[i..i + 5] == name[i..i + 5];
    assert OccursAt(Stem(name), Identity, i);
  }

  /** None of the last four characters of a name whose lower-cased form ends
      in ".zip" is '@'. */
  lemma LoweredTailHasNoAt(name: string, low: string)
    requires |low| == |name| && EndsWith(low, ZipSuffix)
    requires forall k :: 0 <= k < |name| ==> low[k] == LowerChar(name[k])
    ensures forall k :: |name| - 4 <= k < |name| ==> name[k] != '@'
  {
    SuffixHasNoAt(low);
    forall k | |name| - 4 <= k < |name| ensures name[k] != '@' {
      assert low[k] != '@';
      LowerCharKeepsAt(name[k]);
    }
  }

  /** '@' is not a capital letter, so lower-casing keeps it. */
  lemma LowerCharKeepsAt(c: char)
    ensures c == '@' ==> LowerChar(c) == '@'
  {
  }

  /** ".zip" holds no '@'. */
  lemma SuffixHasNoAt(t: string)
    requires EndsWith(t, ZipSuffix)
    ensures forall k :: |t| - 4 <= k < |t| ==> t[k] != '@'
  {
    forall k | |t| - 4 <= k < |t| ensures t[k] != '@' {
      assert t[k] == t[|t| - 4..][k - (|t| - 4)];
    }
  }

  /** No occurrence of the identity can start inside `p` and reach into an
      identity that follows it: its first character '-' does not reappear in it. */
  lemma FirstIdentityAfter(p: string, tail: string)
    requires !Contains(p, Identity)
    ensures Find(p + Identity + tail, Identity) == |p|
  {
    var s := p + Identity + tail;
    assert OccursAt(s, Identity, |p|) by {
      assert s[|p|..|p| + 5] == Identity;
    }
    forall j: nat | j < |p| ensures !OccursAt(s, Identity, j) {
      if j + 5 <= |p| {
        assert p[j..j + 5] == s[j..j + 5];
        assert !OccursAt(p, Identity, j);
      } else {
        assert s[j..j + 5][|p| - j] == s[|p|] == '-';
        assert Identity[|p| - j] != '-';
      }
    }
  }

  /** Round trip: an archive named from a platform and a version that do not
      contain the identity, with ".zip" in any case, is a candidate (unless
      skipped) and parses back to that platform and version. */
  lemma ParseRoundTrip(p: string, v: string, ext: string, skips: seq<string>)
    requires !Contains(p, Identity) && !Contains(v, Identity)
    requires ToLower(ext) == ZipSuffix
    ensures var name := p + Identity + v + ext;
            && (IsCandidate(name, skips) <==> name !in skips)
            && Contains(name, Identity) && EndsWith(ToLower(name), ZipSuffix)
            && Parse(name) == SdkInfo(p, v)
  {
    var stem := p + Identity + v;
    var name := stem + ext;
    NamedArchive(stem, |p|, ext);
    assert Stem(name) == stem;
    FirstIdentityAfter(p, v);
    SplitAt(p, Identity, v);
    SplitFirstPiece(v, Identity);
  }

  /** Appending an extension that lower-cases to ".zip" to a text that contains
      the identity gives a name passing the identity and extension tests. */
  lemma NamedArchive(stem: string, at: nat, ext: string)
    requires OccursAt(stem, Identity, at)
    requires ToLower(ext) == ZipSuffix
    ensures Contains(stem + ext, Identity) && EndsWith(ToLower(stem + ext), ZipSuffix)
  {
    assert (stem + ext)[at..at + 5] == stem[at..at + 5];
    assert OccursAt(stem + ext, Identity, at);
    ToLowerConcat(stem, ext);
    assert ToLower(stem + ext)[|stem|..] == ToLower(ext);
  }

  lemma ExampleName()
    ensures "android" + Identity + "3.2.1" + ".ZIP" == "android-SDK@3.2.1.ZIP"
  {
  }

  /** A concrete instance: "android-SDK@3.2.1.ZIP" names platform "android", version "3.2.1". */
  lemma ParseExample()
    ensures IsCandidate("android-SDK@3.2.1.ZIP", [])
    ensures Parse("android-SDK@3.2.1.ZIP") == SdkInfo("android", "3.2.1")
  {
    assert !Contains("android", Identity) by {
      forall i: nat | i <= 7 ensures !OccursAt("android", Identity, i) {
        if i + 5 <= 7 {
          assert "android"[i..i + 5][0] == "android"[i] != '-';
        }
      }
    }
    assert !Contains("3.2.1", Identity) by {
      assert "3.2.1"[0..5][0] != Identity[0];
    }
    assert ToLower(".ZIP") == ZipSuffix;
    assert OccursAt("android" + Identity + "3.2.1", Identity, 7) by {
      assert ("android" + Identity + "3.2.1")[7..12] == Identity;
    }
    ParseRoundTrip("android", "3.2.1", ".ZIP", []);
    ExampleName();
  }
}
