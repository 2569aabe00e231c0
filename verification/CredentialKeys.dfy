/** Which of the credentials the store admits can be used at all. */
module CredentialKeys {
  import opened Wrappers
  import Credential
  import CredentialMap
  import opened KeyLayout
  import opened KeyAssembly
  import opened KeyValidation

  function Natural(x: int): nat { if x < 0 then 0 else x }

  function KindOf(s: Credential.Segment): Kind {
    match s.kind
    case Static => Static
    case Totp => Totp(if s.shape.window.Some? then Natural(s.shape.window.value) else 60)
    case Hotp => Hotp(Credential.Counter(s))
  }

  function SegmentOf(s: Credential.Segment): Segment {
    Segment(s.id, Range(Natural(s.shape.start), Natural(s.shape.end)), KindOf(s))
  }

  function SegmentsOf(s: seq<Credential.Segment>): (r: seq<Segment>)
    ensures |r| == |s| && forall i | 0 <= i < |s| :: r[i] == SegmentOf(s[i])
  {
    seq(|s|, i requires 0 <= i < |s| => SegmentOf(s[i]))
  }

  /** The map as key assembly and validation read it. */
  function KeyView(m: Credential.TumblerMap): TumblerMap {
    var l := m.policy.layout;
    TumblerMap(Natural(l.keyLength), SegmentsOf(m.segments), Range(Natural(l.checksumStart), Natural(l.checksumEnd)))
  }

  /** Admitted segments cover the key up to the checksum, in order. */
  lemma {:induction false} Admitted(s: seq<Credential.Segment>, keyLength: int, n: nat)
    requires n <= |s| && CredentialMap.SegmentsOk(s, keyLength) && CredentialMap.Adjoining(s)
    ensures CredentialMap.EndOf(s, n) >= n && Contiguous(SegmentsOf(s[..n]), CredentialMap.EndOf(s, n))
    ensures SortByStart(SegmentsOf(s[..n])) == SegmentsOf(s[..n])
  {
    if n > 0 {
      Admitted(s, keyLength, n - 1);
      assert CredentialMap.SegmentOk(s[n - 1], keyLength) && CredentialMap.Adjoins(s, n - 1);
      assert s[..n][..n - 1] == s[..n - 1];
      assert SegmentsOf(s[..n])[..n - 1] == SegmentsOf(s[..n - 1]);
      if n > 1 {
        assert CredentialMap.SegmentOk(s[n - 2], keyLength);
        assert Last(SegmentsOf(s[..n - 1])) == SegmentOf(s[n - 2]);
      }
    }
  }

  lemma AdmittedSpans(m: Credential.TumblerMap)
    requires CredentialMap.ValidMap(m)
    ensures var v, l := KeyView(m), m.policy.layout;
            && SortByStart(v.segments) == v.segments && Contiguous(v.segments, v.checksum.start)
            && v.checksum.start == l.checksumStart <= v.keyLength == v.checksum.end == l.keyLength
  {
    var n := |m.segments|;
    Admitted(m.segments, m.policy.layout.keyLength, n);
    assert m.segments[..n] == m.segments;
    assert CredentialMap.SegmentOk(m.segments[n - 1], m.policy.layout.keyLength);
  }

  predicate TwelveChecksum(m: Credential.TumblerMap) {
    m.policy.layout.keyLength - m.policy.layout.checksumStart == 12
  }

  /** No counter has reached the exhausted mark. */
  predicate Unexhausted(segments: seq<Segment>) {
    forall i | 0 <= i < |segments| && segments[i].kind.Hotp? :: segments[i].kind.counter < 2_147_483_647
  }

  predicate Timed(segments: seq<Segment>) { exists i | 0 <= i < |segments| :: segments[i].kind.Totp? }

  /** What the configuration asks of a map before any key is looked at. */
  predicate Configured(cfg: Config, v: TumblerMap) {
    && cfg.lookahead >= 0 && cfg.minKey <= v.keyLength <= cfg.maxKey
    && (Timed(v.segments) ==> cfg.tolerance >= 0)
  }

  lemma AdmittedShape(m: Credential.TumblerMap)
    requires CredentialMap.ValidMap(m)
    ensures var v := KeyView(m);
            HasHotp(v.segments) && AllWide(v.segments) && Counting(v.segments) && (TwelveChecksum(m) ==> Laid(v))
  {
    AdmittedSpans(m);
    AdmittedSegments(m.segments, m.policy.layout.keyLength);
  }

  predicate Counting(segments: seq<Segment>) {
    forall i | 0 <= i < |segments| && segments[i].kind.Hotp? :: segments[i].kind.counter >= 0
  }

  lemma AdmittedSegments(s: seq<Credential.Segment>, keyLength: int)
    requires CredentialMap.SegmentsOk(s, keyLength) && CredentialMap.Adjoining(s) && CredentialMap.SomeHotp(s)
    ensures HasHotp(SegmentsOf(s)) && AllWide(SegmentsOf(s)) && Counting(SegmentsOf(s))
  {
    var h :| 0 <= h < |s| && s[h].kind == Credential.Hotp;
    assert SegmentsOf(s)[h].kind.Hotp?;
    forall i | 0 <= i < |s|
      ensures Width(SegmentsOf(s)[i]) > 0
    {
      AdmittedWide(s, keyLength, i);
    }
  }

  lemma AdmittedWide(s: seq<Credential.Segment>, keyLength: int, i: nat)
    requires i < |s| && CredentialMap.SegmentsOk(s, keyLength) && CredentialMap.Adjoining(s)
    ensures Width(SegmentOf(s[i])) > 0
  {
    Admitted(s, keyLength, i);
    assert CredentialMap.SegmentOk(s[i], keyLength) && CredentialMap.Adjoins(s, i);
  }

  /** A key that validates shows the checksum to be twelve characters and no counter exhausted. */
  lemma AcceptedNeeds(mac: Mac, cfg: Config, v: TumblerMap, now: Clock, key: string)
    requires MacOk(mac) && Validate(mac, cfg, key, v, Some(now)).Ok?
    requires v.checksum.start <= v.checksum.end == v.keyLength
    ensures v.checksum.end - v.checksum.start == CHECKSUM && Unexhausted(v.segments) && Configured(cfg, v)
  {
    AcceptedIff(mac, cfg, key, v, Some(now));
    ChecksumWidth(mac, key, v);
    forall i | 0 <= i < |v.segments|
      ensures v.segments[i].kind.Hotp? ==> v.segments[i].kind.counter < MAX_COUNTER
      ensures v.segments[i].kind.Totp? ==> cfg.tolerance >= 0
    {
      assert Matches(mac, cfg, key, v.segments[i], now);
    }
  }

  lemma ChecksumWidth(mac: Mac, key: string, v: TumblerMap)
    requires MacOk(mac) && ChecksumMatches(mac, key, v)
    requires v.checksum.start <= v.checksum.end == v.keyLength == |key|
    ensures v.checksum.end - v.checksum.start == CHECKSUM
  {
    assert |Slice(key, v.checksum.start, v.checksum.end)| == CHECKSUM;
  }

  ghost predicate AcceptsSome(mac: Mac, cfg: Config, v: TumblerMap, now: Clock)
    requires MacOk(mac)
  {
    exists key :: Validate(mac, cfg, key, v, Some(now)).Ok?
  }

  lemma OwnKeyAccepted(mac: Mac, cfg: Config, v: TumblerMap, now: Clock)
    requires MacOk(mac) && Laid(v) && HasHotp(v.segments) && AllWide(v.segments) && Counting(v.segments)
    requires Unexhausted(v.segments) && Configured(cfg, v)
    ensures AcceptsSome(mac, cfg, v, now)
  {
    ClientKeyAccepted(mac, cfg, v, map[], now, now);
    assert Validate(mac, cfg, ClientKeyOf(mac, v, map[], now), v, Some(now)).Ok?;
  }

  /** An admitted credential accepts some key exactly when its checksum is twelve characters, no
      counter is exhausted and the configuration admits its length and windows. Admission itself
      does not ask for the checksum's length. */
  lemma UsableIff(mac: Mac, cfg: Config, m: Credential.TumblerMap, now: Clock)
    requires MacOk(mac) && CredentialMap.ValidMap(m)
    ensures AcceptsSome(mac, cfg, KeyView(m), now) <==>
            TwelveChecksum(m) && Unexhausted(KeyView(m).segments) && Configured(cfg, KeyView(m))
  {
    var v := KeyView(m);
    AdmittedSpans(m);
    AdmittedShape(m);
    if AcceptsSome(mac, cfg, v, now) {
      var key :| Validate(mac, cfg, key, v, Some(now)).Ok?;
      AcceptedNeeds(mac, cfg, v, now, key);
    } else if TwelveChecksum(m) && Unexhausted(v.segments) && Configured(cfg, v) {
      OwnKeyAccepted(mac, cfg, v, now);
    }
  }

  /** And the store does admit a map whose checksum is shorter. */
  lemma ShortChecksumAdmitted()
    ensures exists m :: CredentialMap.ValidMap(m) && !TwelveChecksum(m)
  {
    var h := Credential.Segment("h", Credential.Hotp, Credential.Shape(8, 20, None), Some(0));
    var a := Credential.Segment("a", Credential.Static, Credential.Shape(0, 8, None), None);
    var layout := Credential.Layout(28, 20, 28, None);
    var m := Credential.TumblerMap(Credential.Identity("c", seq(64, _ => '0'), 0, "1"),
                                   Credential.Policy(None, None, None, None, layout), [a, h], None, None, None);
    assert m.segments[..1] == [a] && [a][..0] == [];
    assert Credential.MinRemaining([a]).None?;
    assert Credential.MinRemaining(m.segments) == Some(MAX_COUNTER);
    assert m.segments[1].kind == Credential.Hotp;
    assert CredentialMap.ValidMap(m) && !TwelveChecksum(m);
  }
}
