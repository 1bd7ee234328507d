/** The decisions of the preferences dialog: how the stored transmit timeout is shown
    as hours, minutes and seconds and recombined, which display format the radio
    buttons select, and when accepting the dialog asks for a restart. The widgets are
    represented by a snapshot of their values. */
module PreferencesDialog {

  datatype Option<T> = None | Some(value: T)

  /** The stored display format. The dialog starts from the integer 0 before reading
      the radios; Unset stands for that value. */
  datatype DisplayFormat = Unset | Decimal | Hexadecimal | Percent

  /** The checked state of the three display-format radio buttons. */
  datatype FormatRadios = FormatRadios(decimal: bool, hexadecimal: bool, percent: bool)

  /** The three spin boxes of the transmit-timeout group. */
  datatype Hms = Hms(hours: int, minutes: int, seconds: int)

  /** The checkable transmit-timeout group box and its spin boxes. */
  datatype TimeoutGroup = TimeoutGroup(checked: bool, spins: Hms)

  /** A network-interface radio button and the index of the interface it stands for. */
  datatype InterfaceButton = InterfaceButton(checked: bool, index: int)

  /** The stored preferences the dialog reads and writes. The network interface is
      represented by its index. */
  datatype Prefs = Prefs(displayFormat: DisplayFormat, blindVisualizer: bool, displayDDOnly: bool,
                         saveWindowLayout: bool, secondsOfSacn: int, defaultTransmitName: string,
                         networkInterface: int, networkListenAll: bool)

  /** The values of the dialog's widgets when it is accepted. */
  datatype Dialog = Dialog(formats: FormatRadios, displayBlind: bool, displayDDOnly: bool,
                           restoreWindows: bool, timeout: TimeoutGroup, sourceName: string,
                           interfaces: seq<InterfaceButton>, listenAll: bool)

  /** The number of seconds the spin boxes stand for. */
  function TotalSeconds(t: Hms): int
  {
    t.hours * 60 * 60 + t.minutes * 60 + t.seconds
  }

  /** A positive timeout shown as hours, minutes and seconds, with the integer
      quotients the constructor computes (for positive operands, C++ truncation and
      Dafny's quotient agree). */
  function SplitTimeout(timeout: int): (t: Hms)
    requires timeout > 0
    ensures t.hours >= 0 && 0 <= t.minutes < 60 && 0 <= t.seconds < 60
  {
    var hour := timeout / (60 * 60);
    var min := timeout / 60 - hour * 60;
    var sec := timeout - hour * 60 * 60 - min * 60;
    Hms(hour, min, sec)
  }

  /** Splitting a positive timeout and recombining it on accept gives the timeout back. */
  lemma SplitThenCombine(timeout: int)
    requires timeout > 0
    ensures TotalSeconds(SplitTimeout(timeout)) == timeout
  {
    var t := SplitTimeout(timeout);
    assert TotalSeconds(t) == t.hours * 3600 + t.minutes * 60 + t.seconds;
  }

  /** Conversely, spin values within their ranges describing a positive timeout are
      exactly what the constructor shows for that timeout. */
  lemma CombineThenSplit(t: Hms)
    requires t.hours >= 0 && 0 <= t.minutes < 60 && 0 <= t.seconds < 60
    requires TotalSeconds(t) > 0
    ensures SplitTimeout(TotalSeconds(t)) == t
  {
    var total := TotalSeconds(t);
    assert total / 60 == t.hours * 60 + t.minutes;
    assert total / 3600 == t.hours;
  }

  /** The constructor's timeout group: checked and showing the split timeout when the
      stored timeout is positive, otherwise unchecked with the spin boxes as they were. */
  function TimeoutGroupFor(timeout: int, spins: Hms): (g: TimeoutGroup)
    ensures g.checked <==> timeout > 0
    ensures g.checked ==> TotalSeconds(g.spins) == timeout
    ensures !g.checked ==> g.spins == spins
  {
    if timeout > 0 then
      SplitThenCombine(timeout);
      TimeoutGroup(true, SplitTimeout(timeout))
    else TimeoutGroup(false, spins)
  }

  /** The seconds accept stores: the recombined spin values, or 0 when the group is
      unchecked whatever the spin boxes hold. */
  function AcceptedSeconds(g: TimeoutGroup): (s: int)
  {
    if g.checked then TotalSeconds(g.spins) else 0
  }

  /** Opening the dialog and accepting it unchanged stores a positive timeout again,
      and 0 for a timeout that is not positive. */
  lemma TimeoutRoundTrip(timeout: int, spins: Hms)
    ensures AcceptedSeconds(TimeoutGroupFor(timeout, spins)) == if timeout > 0 then timeout else 0
  {
  }

  /** The constructor's switch: the radio of the stored format is checked, the others
      are left as they were; an unrecognised format checks none. Starting from no
      radio checked, each stored format checks exactly its own radio, and accept
      reads that radio back as the same format. */
  function CheckFormat(f: DisplayFormat, before: FormatRadios): (r: FormatRadios)
    ensures f == Decimal ==> r == before.(decimal := true)
    ensures f == Hexadecimal ==> r == before.(hexadecimal := true)
    ensures f == Percent ==> r == before.(percent := true)
    ensures f == Unset ==> r == before
    ensures before == FormatRadios(false, false, false) ==>
              && (r.decimal <==> f == Decimal)
              && (r.hexadecimal <==> f == Hexadecimal)
              && (r.percent <==> f == Percent)
              && ReadFormat(r) == f
  {
    match f
    case Decimal => before.(decimal := true)
    case Percent => before.(percent := true)
    case Hexadecimal => before.(hexadecimal := true)
    case Unset => before
  }

  /** The format accept reads when the radios are tested as Decimal, then Hexadecimal,
      then Percent, each checked one overriding the previous: Percent if checked,
      otherwise Hexadecimal if checked, otherwise Decimal if checked, otherwise 0. */
  function ReadFormat(r: FormatRadios): (f: DisplayFormat)
  {
    if r.percent then Percent
    else if r.hexadecimal then Hexadecimal
    else if r.decimal then Decimal
    else Unset
  }

  /** The index of the first checked interface button whose interface differs from
      the current one, if there is such a button. */
  function FirstChangedInterface(buttons: seq<InterfaceButton>, current: int): (k: Option<nat>)
    ensures k.Some? ==>
              && k.value < |buttons| && buttons[k.value].checked && buttons[k.value].index != current
              && forall j :: 0 <= j < k.value ==> !buttons[j].checked || buttons[j].index == current
    ensures k.None? ==> forall j :: 0 <= j < |buttons| ==> !buttons[j].checked || buttons[j].index == current
  {
    if |buttons| == 0 then None
    else if buttons[0].checked && buttons[0].index != current then Some(0)
    else match FirstChangedInterface(buttons[1..], current)
      case None => None
      case Some(k) => Some(k + 1)
  }

  /** The interface stored on accept: the one of the first checked button that differs
      from the current interface, or the current one. */
  function AcceptedInterface(buttons: seq<InterfaceButton>, current: int): int
  {
    match FirstChangedInterface(buttons, current)
    case None => current
    case Some(k) => buttons[k].index
  }

  /** The OK handler. It writes every preference from the dialog and reports whether
      a restart is needed: exactly when the DD-only box changed, some checked
      interface differs from the current one, or the listen-all box changed. */
  method Accept(d: Dialog, p: Prefs) returns (q: Prefs, requiresRestart: bool)
    ensures q == Prefs(ReadFormat(d.formats), d.displayBlind, d.displayDDOnly, d.restoreWindows,
                       AcceptedSeconds(d.timeout), d.sourceName,
                       AcceptedInterface(d.interfaces, p.networkInterface), d.listenAll)
    ensures requiresRestart <==>
              || d.displayDDOnly != p.displayDDOnly
              || (exists j :: 0 <= j < |d.interfaces| &&
                              d.interfaces[j].checked && d.interfaces[j].index != p.networkInterface)
              || d.listenAll != p.networkListenAll
  {
    requiresRestart := false;

    var displayFormat := Unset;
    if d.formats.decimal {
      displayFormat := Decimal;
    }
    if d.formats.hexadecimal {
      displayFormat := Hexadecimal;
    }
    if d.formats.percent {
      displayFormat := Percent;
    }

    if d.displayDDOnly != p.displayDDOnly {
      requiresRestart := true;
    }

    var h := d.timeout.spins;
    var seconds := h.hours * 60 * 60 + h.minutes * 60 + h.seconds;
    if !d.timeout.checked {
      seconds := 0;
    }

    var buttons := d.interfaces;
    var networkInterface := p.networkInterface;
    for i := 0 to |buttons|
      invariant networkInterface == p.networkInterface
      invariant requiresRestart <==> d.displayDDOnly != p.displayDDOnly
      invariant forall j :: 0 <= j < i ==> !buttons[j].checked || buttons[j].index == p.networkInterface
    {
      if buttons[i].checked {
        if buttons[i].index != networkInterface {
          networkInterface := buttons[i].index;
          requiresRestart := true;
          FirstChangedIsAt(buttons, p.networkInterface, i);
          break;
        }
      }
    }

    requiresRestart := requiresRestart || d.listenAll != p.networkListenAll;
    q := Prefs(displayFormat, d.displayBlind, d.displayDDOnly, d.restoreWindows, seconds,
               d.sourceName, networkInterface, d.listenAll);
  }

  /** When no button before `i` qualifies and button `i` does, the first qualifying
      button is `i`. */
  lemma FirstChangedIsAt(buttons: seq<InterfaceButton>, current: int, i: nat)
    requires i < |buttons| && buttons[i].checked && buttons[i].index != current
    requires forall j :: 0 <= j < i ==> !buttons[j].checked || buttons[j].index == current
    ensures FirstChangedInterface(buttons, current) == Some(i)
  {
  }
}
