/** How a score is shown: the half-circle gauge of the setup page (`SetupScoreGauge.tsx`) with
    its colour and label bands, and the analysis history page (`AnalysisHistoryPage.tsx`) with
    its coarser chip colours and the loading of the history lists. Scores are JavaScript
    numbers, modelled as reals. */
module ScoreDisplay {
  import opened Json
  import Http
  import Client

  /** `Math.max(0, Math.min(100, score))`. */
  function Clamp(score: real): (r: real)
    ensures 0.0 <= r <= 100.0
    ensures 0.0 <= score <= 100.0 ==> r == score
    ensures score < 0.0 ==> r == 0.0
    ensures score > 100.0 ==> r == 100.0
  {
    var low := if 100.0 < score then 100.0 else score;
    if 0.0 < low then low else 0.0
  }

  /** Clamping twice is clamping once, and clamping never reverses the order of two scores. */
  lemma ClampIdempotentMonotone(a: real, b: real)
    ensures Clamp(Clamp(a)) == Clamp(a)
    ensures a <= b ==> Clamp(a) <= Clamp(b)
  {
  }

  /** The five gauge colours, from the best band down. */
  datatype GaugeColour = Green | LightGreen | Yellow | Orange | Red {
    function Hex(): string {
      match this
      case Green => "#4caf50"
      case LightGreen => "#8bc34a"
      case Yellow => "#ffeb3b"
      case Orange => "#ff9800"
      case Red => "#f44336"
    }

    /** The position of the band, counted from the worst. */
    function Rank(): nat {
      match this
      case Red => 0
      case Orange => 1
      case Yellow => 2
      case LightGreen => 3
      case Green => 4
    }
  }

  /** The gauge's `getScoreColor`: bands at 80, 70, 60 and 50. */
  function ColourOf(score: real): (c: GaugeColour)
    ensures c == Green <==> score >= 80.0
    ensures c == LightGreen <==> 70.0 <= score < 80.0
    ensures c == Yellow <==> 60.0 <= score < 70.0
    ensures c == Orange <==> 50.0 <= score < 60.0
    ensures c == Red <==> score < 50.0
  {
    if score >= 80.0 then Green
    else if score >= 70.0 then LightGreen
    else if score >= 60.0 then Yellow
    else if score >= 50.0 then Orange
    else Red
  }

  /** The six gauge labels, from the best band down. */
  datatype Label = Excellent | VeryGood | Good | Decent | Basic | NeedsWork {
    function Text(): string {
      match this
      case Excellent => "Excellent"
      case VeryGood => "Very Good"
      case Good => "Good"
      case Decent => "Decent"
      case Basic => "Basic"
      case NeedsWork => "Needs Work"
    }

    function Rank(): nat {
      match this
      case NeedsWork => 0
      case Basic => 1
      case Decent => 2
      case Good => 3
      case VeryGood => 4
      case Excellent => 5
    }
  }

  /** `getScoreLabel`: bands at 90, 80, 70, 60 and 50. */
  function LabelOf(score: real): (l: Label)
    ensures l == Excellent <==> score >= 90.0
    ensures l == VeryGood <==> 80.0 <= score < 90.0
    ensures l == Good <==> 70.0 <= score < 80.0
    ensures l == Decent <==> 60.0 <= score < 70.0
    ensures l == Basic <==> 50.0 <= score < 60.0
    ensures l == NeedsWork <==> score < 50.0
  {
    if score >= 90.0 then Excellent
    else if score >= 80.0 then VeryGood
    else if score >= 70.0 then Good
    else if score >= 60.0 then Decent
    else if score >= 50.0 then Basic
    else NeedsWork
  }

  /** A higher score never gets a worse colour or a worse label. */
  lemma BandsMonotone(a: real, b: real)
    requires a <= b
    ensures ColourOf(a).Rank() <= ColourOf(b).Rank()
    ensures LabelOf(a).Rank() <= LabelOf(b).Rank()
  {
  }

  /** The labels refine the colours: the green band is split into "Excellent" and
      "Very Good", and below 80 every colour band has exactly one label. */
  lemma LabelsRefineColours(score: real)
    ensures ColourOf(score) == Green <==> LabelOf(score) in {Excellent, VeryGood}
    ensures score < 80.0 ==> LabelOf(score).Rank() == ColourOf(score).Rank()
  {
  }

  /** What the gauge draws: the score segment, the remaining segment, and the number, colour
      and label in the middle. */
  datatype Gauge = Gauge(shown: real, remaining: real, colour: GaugeColour, caption: Label)

  /** `SetupScoreGauge`. Colour and label are taken from the clamped score, which puts every
      score in the band its raw value belongs to, since all band limits lie in [0, 100]. */
  function GaugeFor(score: real): (g: Gauge)
    ensures g.shown == Clamp(score)
    ensures g.shown + g.remaining == 100.0 && 0.0 <= g.remaining <= 100.0
    ensures g.colour == ColourOf(score) && g.caption == LabelOf(score)
  {
    var shown := Clamp(score);
    Gauge(shown, 100.0 - shown, ColourOf(shown), LabelOf(shown))
  }

  /** The chip colours of the history page. */
  datatype Chip = Success | Warning | Error

  /** The history page's `getScoreColor`: bands at 80 and 60 only. */
  function ChipOf(score: real): (c: Chip)
    ensures c == Success <==> score >= 80.0
    ensures c == Warning <==> 60.0 <= score < 80.0
    ensures c == Error <==> score < 60.0
  {
    if score >= 80.0 then Success
    else if score >= 60.0 then Warning
    else Error
  }

  /** The history chips are a coarsening of the gauge colours: green is success, light green
      and yellow are warning, orange and red are error. */
  lemma ChipsCoarsenColours(score: real)
    ensures ChipOf(score) == Success <==> ColourOf(score) == Green
    ensures ChipOf(score) == Warning <==> ColourOf(score) in {LightGreen, Yellow}
    ensures ChipOf(score) == Error <==> ColourOf(score) in {Orange, Red}
  {
  }

  const LoadFailed := "Failed to load analysis " + "history"

  /** The state of the history page: the two lists as received, the error text shown, and
      whether the spinner is on. */
  datatype History = History(tankAnalyses: Json, imageAnalyses: Json, error: string, loading: bool)

  const InitialHistory := History(JArr([]), JArr([]), "", true)

  /** `loadAnalysisHistory`. Without a session nothing happens. A failed call shows its
      message (`data.error`, or the default message when that is falsy) and keeps the lists.
      An ok response replaces both lists, a missing or falsy list becoming `[]`, and leaves
      the error shown before as it was; a `null` body throws when its lists are read. */
  function LoadHistory(prev: History, hasSession: bool, resp: Client.Response, fmt: real -> string): (r: History)
    ensures !hasSession ==> r == prev
    ensures hasSession ==> !r.loading
    ensures hasSession && resp.Replied? && resp.ok && resp.body.Parsed? && !resp.body.value.JNull? ==>
              var d := resp.body.value;
              r.error == prev.error
              && (Present(Member(d, "tankAnalyses")) ==> r.tankAnalyses == Member(d, "tankAnalyses").value)
              && (!Present(Member(d, "tankAnalyses")) ==> r.tankAnalyses == JArr([]))
              && (Present(Member(d, "imageAnalyses")) ==> r.imageAnalyses == Member(d, "imageAnalyses").value)
              && (!Present(Member(d, "imageAnalyses")) ==> r.imageAnalyses == JArr([]))
    ensures hasSession && Client.Answer(resp, LoadFailed, fmt).Failure? ==>
              r.error == Client.Answer(resp, LoadFailed, fmt).error
    ensures hasSession && resp == Client.Replied(true, Parsed(JNull)) ==> r.error == Http.RuntimeError
    ensures (hasSession && !(resp.Replied? && resp.ok && resp.body.Parsed? && !resp.body.value.JNull?)) ==>
              r.tankAnalyses == prev.tankAnalyses && r.imageAnalyses == prev.imageAnalyses
  {
    if !hasSession then prev
    else
      match Client.Answer(resp, LoadFailed, fmt)
      case Failure(m) => prev.(error := m, loading := false)
      case Success(d) =>
        if d.JNull? then prev.(error := Http.RuntimeError, loading := false)
        else
          prev.(tankAnalyses := OrElse(Member(d, "tankAnalyses"), JArr([])),
                imageAnalyses := OrElse(Member(d, "imageAnalyses"), JArr([])),
                loading := false)
  }

  /** A failed load followed by a successful retry still shows the first failure's message:
      the success path never clears the error. */
  lemma RetryKeepsStaleError(prev: History, failed: Client.Response, data: Json, fmt: real -> string)
    requires failed == Client.Replied(false, Parsed(JObj(map[])))
    requires data.JObj?
    ensures var once := LoadHistory(prev, true, failed, fmt);
            once.error == LoadFailed
            && LoadHistory(once, true, Client.Replied(true, Parsed(data)), fmt).error == LoadFailed
  {
  }
}
