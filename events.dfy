/** The messages the launch thread puts on the UI queue, kept as an event
    log: the queue's consumer (the Tk window) is not part of this model. */
module Events {
  import opened Text

  datatype UiEvent =
    | StartDeterminate(max: nat)   // {"type": "progress_start_determinate", "max": n}
    | SetValue(value: nat)         // {"type": "progress_set_value", "value": n}
    | Step                         // {"type": "progress_step"}
    | Status(text: string)         // {"type": "status", "text": ...}

  /** "Baixando asset (i/n)", the status line of the sequential asset loop. */
  function AssetStatusText(i: nat, n: nat): string {
    "Baixando asset (" + NatToString(i) + "/" + NatToString(n) + ")"
  }

  /** "Baixando (p%)", the status line of the parallel download loop. */
  function PercentStatusText(percent: nat): string {
    "Baixando (" + NatToString(percent) + "%)"
  }
}
