/** The evidence packet a consumer sends to the provider, and the downtime threshold both judge by. */
module Wire {
  import opened Common
  import opened Bitmaps

  /** minSigned is None when the payload omitted it (a nil-backed decimal). */
  datatype DowntimeParams = DowntimeParams(window: int, minSigned: Option<int>)

  datatype Infraction = Downtime | DoubleSign | Unspecified

  datatype EvidencePacket = EvidencePacket(
    validator: Address,
    windowEnd: int,
    infraction: Infraction,
    windowStart: int,
    missed: Bitmap,
    params: DowntimeParams)
  {
    function Span(): int {
      windowEnd - windowStart + 1
    }

    function MissedCount(): int {
      CountBits(missed, 0, Span())
    }
  }

  datatype PacketError =
    | EmptyValidator | NonPositiveEnd | WrongInfraction | NonPositiveStart | InvertedWindow
    | NonPositiveWindow | SpanTooLong | WrongBitmapLength | NilMinSigned | MinSignedOutOfRange | NothingMissed

  predicate ValidDowntimeParams(p: DowntimeParams) {
    && p.window > 0
    && p.minSigned.Some?
    && 0 < p.minSigned.value < ONE
  }

  /** LegacyDec.Ceil followed by TruncateInt64. */
  function CeilDec(x: int): int {
    -((-x) / ONE)
  }

  function MaxMissed(p: DowntimeParams): int
    requires p.minSigned.Some?
  {
    p.window - CeilDec(p.minSigned.value * p.window)
  }

  function NewEvidencePacket(validator: Address, start: int, missed: Bitmap, span: int, params: DowntimeParams)
    : EvidencePacket
  {
    EvidencePacket(validator, start + span - 1, Downtime, start, missed, params)
  }

  /** The first check the packet fails, in the order they are made. */
  function Validate(p: EvidencePacket): Option<PacketError> {
    if p.validator == NO_ADDRESS then Some(EmptyValidator)
    else if p.windowEnd <= 0 then Some(NonPositiveEnd)
    else if p.infraction != Downtime then Some(WrongInfraction)
    else if p.windowStart <= 0 then Some(NonPositiveStart)
    else if p.windowEnd < p.windowStart then Some(InvertedWindow)
    else if p.params.window <= 0 then Some(NonPositiveWindow)
    else if p.Span() > p.params.window then Some(SpanTooLong)
    else if |p.missed| != ByteLen(p.Span()) then Some(WrongBitmapLength)
    else if p.params.minSigned.None? then Some(NilMinSigned)
    else if p.params.minSigned.value <= 0 || p.params.minSigned.value >= ONE then Some(MinSignedOutOfRange)
    else if p.MissedCount() <= 0 then Some(NothingMissed)
    else None
  }

  /** Counts the reported misses with a loop over the span, ignoring trailing bits. */
  method CountMissed(p: EvidencePacket) returns (count: int)
    ensures count == p.MissedCount()
    ensures p.Span() >= 0 ==> 0 <= count <= p.Span()
  {
    var span := p.Span();
    count := 0;
    var i := 0;
    while i < span
      invariant 0 <= i <= (if span < 0 then 0 else span)
      invariant count == CountBits(p.missed, 0, i)
    {
      if BitmapIsSet(p.missed, i) {
        count := count + 1;
      }
      i := i + 1;
    }
  }

  lemma CeilBounds(x: int)
    ensures (CeilDec(x) - 1) * ONE < x <= CeilDec(x) * ONE
  {
    assert -x == ((-x) / ONE) * ONE + (-x) % ONE;
  }

  /**
   * With a required fraction strictly between 0 and 1 the threshold is a number of blocks smaller
   * than the window, and a validator exceeds it exactly when the fraction it signed is below the
   * required one.
   */
  lemma MaxMissedIsTheThreshold(p: DowntimeParams, missed: int)
    requires ValidDowntimeParams(p)
    ensures 0 <= MaxMissed(p) < p.window
    ensures missed > MaxMissed(p) <==> (p.window - missed) * ONE < p.minSigned.value * p.window
  {
    var W, M := p.window, p.minSigned.value;
    var c := CeilDec(M * W);
    CeilBounds(M * W);
    assert 0 < M * W < ONE * W;
    assert (c - 1) * ONE < W * ONE;
  }

  lemma MaxMissedNonNegative(p: DowntimeParams)
    requires ValidDowntimeParams(p)
    ensures 0 <= MaxMissed(p)
  {
    MaxMissedIsTheThreshold(p, 0);
  }
}
