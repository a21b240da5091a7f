/** A cloud volume as the detail call shows it. */
module Volumes {
  import opened Capacity

  datatype VolumeStatus = Creating | Available | Attaching | InUse | Detaching | Scaling | OtherStatus

  datatype Attachment = Attachment(instance: string, device: string, serial: string)

  datatype Model = Model(status: VolumeStatus, attachments: seq<Attachment>, sizeGB: int64)

  // The first attachment to a node.
  function FindAttachment(attachments: seq<Attachment>, node: string): (index: int)
    ensures -1 <= index < |attachments|
    ensures index >= 0 ==> attachments[index].instance == node
    ensures forall j | 0 <= j < index :: attachments[j].instance != node
    ensures index == -1 ==> forall a | a in attachments :: a.instance != node
  {
    if attachments == [] then -1
    else if attachments[0].instance == node then 0
    else
      var rest := FindAttachment(attachments[1..], node);
      if rest < 0 then -1 else rest + 1
  }

  predicate IsAttachedTo(attachments: seq<Attachment>, node: string) {
    FindAttachment(attachments, node) >= 0
  }
}
