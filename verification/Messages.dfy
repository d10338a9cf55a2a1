/** Client frames after JSON decoding, and the views the relay takes of them. */
module Messages {
  import opened AuthEvent
  import opened Wrappers

  /** One array element: its text and what it decodes to, as a string, as a whole event, and as
      the two partial events of which only the id or only the pubkey is read. */
  datatype Element = Element(
    raw: string, text: Option<string>, event: Option<Event>, id: Option<string>, pubkey: Option<string>)

  /** A frame; `items` is absent when the payload is not a JSON array. */
  datatype Frame = Frame(raw: string, items: Option<seq<Element>>)

  function MessageType(f: Frame): Option<string> {
    if f.items.None? || f.items.value == [] then None else f.items.value[0].text
  }

  function EventID(f: Frame): string {
    if f.items.None? || |f.items.value| < 2 || f.items.value[1].id.None? then "" else f.items.value[1].id.value
  }

  function EventPubkey(f: Frame): Option<string> {
    if f.items.None? || |f.items.value| < 2 then None else f.items.value[1].pubkey
  }

  function ParseEvent(f: Frame): Option<Event> {
    if f.items.None? || |f.items.value| < 2 then None else f.items.value[1].event
  }

  /** The subscription and the filters of a REQ frame. */
  function ParseREQ(f: Frame): Option<(string, seq<string>)> {
    if f.items.None? || |f.items.value| < 3 then None
    else
      var items := f.items.value;
      if items[0].text != Some("REQ") then None
      else
        match items[1].text
        case None => None
        case Some(subID) => Some((subID, Raws(items[2..])))
  }

  function Raws(items: seq<Element>): (r: seq<string>)
    ensures |r| == |items| && forall i :: 0 <= i < |r| ==> r[i] == items[i].raw
  {
    if items == [] then [] else [items[0].raw] + Raws(items[1..])
  }

  predicate IsBootstrap(e: Event) {
    e.kind == 0 && e.checks.pubkeyIsHex && e.checks.idMatches && e.checks.signature
  }
}
