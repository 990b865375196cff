/**
 When a recovery artifact fits: the 2 MiB limit of internal/admin/recovery.go against the 1 MiB
 limit on policies. Base64 leaves almost 700,000 bytes for the rest, and the only part of the
 rest without a bound of its own is the alias.
 */
module ArtifactSize {
  import opened Basics
  import opened Utf8
  import opened TomlStrings
  import opened Edits
  import opened EditorMachine

  lemma HexPiece(s: string)
    requires s != "" && LowerHex(s)
    ensures JsonPiece(s) == (s[..1], 1)
  {
    assert DecodeFirst(s) == Scalar(s[0] as int, 1);
  }

  lemma {:induction false} HexJson(s: string)
    requires LowerHex(s)
    ensures JsonBody(s) == s
  {
    hide JsonPiece;
    if s != "" {
      HexPiece(s);
      HexJson(s[1..]);
      assert s == s[..1] + s[1..];
    }
  }

  lemma PieceSize(s: string)
    requires s != ""
    ensures JsonPiece(s).1 <= |JsonPiece(s).0| <= 6 * JsonPiece(s).1
  {
    if DecodeFirst(s).Scalar? { DecodedWidth(s); }
  }

  /** Escaping makes a value longer, but at most six times as long. */
  lemma {:induction false} JsonSize(s: string)
    ensures |s| <= |JsonBody(s)| <= 6 * |s|
  {
    hide JsonPiece;
    if s != "" {
      PieceSize(s);
      JsonSize(s[JsonPiece(s).1..]);
    }
  }

  /** The part of the encoding that is the same for every removal: keys, quotes, ID and digests. */
  const Frame := 266

  /** The size of the artifact of a removal, exactly. */
  lemma SizeExact(env: Env, edit: Edit, now: int, before: string, after: string)
    requires edit.DropProject? && ValidId(edit.recoveryId) && DigestLaw(env.f) && before != ""
    ensures Fits(env, ArtifactOf(env, edit, now, before, after))
            <==> Frame + |env.stamp(now)| + |JsonString(edit.alias)| + Base64Size(|before|) <= MaxArtifactBytes
  {
    hide LowerHex;
    assert ValidDigest(env.f.digest(before)) && ValidDigest(env.f.digest(after));
    HexJson(edit.recoveryId);
    HexJson(env.f.digest(before));
    HexJson(env.f.digest(after));
    hide JsonBody;
  }

  /** With an alias of at most 116,458 bytes the artifact of any policy within its limit fits. */
  lemma ShortAliasFits(env: Env, edit: Edit, now: int, before: string, after: string)
    requires edit.DropProject? && ValidId(edit.recoveryId) && DigestLaw(env.f)
    requires before != "" && |before| <= MaxPolicyBytes && |env.stamp(now)| <= 30 && |edit.alias| <= 116458
    ensures Fits(env, ArtifactOf(env, edit, now, before, after))
  {
    hide Fits, ArtifactOf;
    SizeExact(env, edit, now, before, after);
    JsonSize(edit.alias);
    assert Base64Size(|before|) <= 1398104;
  }

  /** A policy of the full size cannot lose a project with an alias of 698,781 bytes or more. */
  lemma LongAliasRefused(env: Env, edit: Edit, now: int, before: string, after: string)
    requires edit.DropProject? && ValidId(edit.recoveryId) && DigestLaw(env.f)
    requires |before| == MaxPolicyBytes && |edit.alias| >= 698781
    ensures !Fits(env, ArtifactOf(env, edit, now, before, after))
  {
    hide Fits, ArtifactOf;
    SizeExact(env, edit, now, before, after);
    JsonSize(edit.alias);
  }

  /** Padded base64: the least multiple of four with room for six bits a character. */
  lemma Base64Exact(n: nat)
    ensures Base64Size(n) % 4 == 0 && 8 * n <= 6 * Base64Size(n) < 8 * n + 24
  {
  }

  lemma EditStays(env: Env, s: State, a: Action, e: nat)
    requires Do(env, s, a).Some? && e in Do(env, s, a).value.editors
    ensures e in s.editors ==> Do(env, s, a).value.editors[e].edit == s.editors[e].edit
    ensures e !in s.editors ==> a.Start? && a.e == e && MayStart(env, s, e, a.edit)
                                && Do(env, s, a).value.editors[e].edit == a.edit
  {
    hide DoRead, DoPublish, DoLock, DoTemp, DoReplace, DoStop, MayStart;
    if a.Start? {
      NotYet(env, s, a.e, a.edit);
    } else {
      hide Do;
      DoMoves(env, s, a);
    }
  }

  /** Over any run a restore works with an artifact of at most 2 MiB, one found before the run included. */
  lemma {:induction false} RestoresFit(env: Env, s: State, actions: seq<Action>, e: nat)
    requires Initial(env, s) && Run(env, s, actions).Some? && e in Run(env, s, actions).value.editors
    requires Run(env, s, actions).value.editors[e].edit.Restore?
    ensures var a := Run(env, s, actions).value.editors[e].edit.artifact;
            EncodedSize(Stamp(env, a.createdAt), a) <= 2097152
    decreases |actions|
  {
    hide Do, EncodedSize, Stamp;
    if actions != [] {
      var n := |actions| - 1;
      var mid := Run(env, s, actions[..n]).value;
      EditStays(env, mid, actions[n], e);
      if e in mid.editors { RestoresFit(env, s, actions[..n], e); }
    }
  }
}
