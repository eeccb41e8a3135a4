// pkg/controllers/workspace_controller.go, the part that concerns terraform state: backing up the state
// secret to a bucket, and restoring it when a workspace has none. The bucket overwrites, as the GCS and
// S3 providers do.
module StateBackup {
  import opened Common

  /** The content of a state secret, parsed, or what cannot be parsed. */
  datatype Data = StateFile(serial: int, outputs: map<string, string>, body: string) | Unreadable(raw: string)

  /** The version changes with every write of the secret. */
  datatype Secret = Secret(data: Data, owned: bool, version: nat)

  datatype Status = Status(serial: Option<int>, backupSerial: Option<int>, outputs: map<string, string>)

  datatype Workspace = Workspace(ephemeral: bool, status: Status)

  datatype World = World(
    provider: bool,            // a backup provider is configured
    ws: Option<Workspace>,     // with its committed status
    secret: Option<Secret>,
    bucket: Option<Data>,
    revision: nat)

  /** The answer of the client's cache, which may lag behind the cluster. */
  datatype Read = ReadError | NotFound | Got(secret: Secret)

  datatype Upload = Uploaded | Refused | UploadedThenFailed

  datatype Faults = Faults(update: bool, upload: Upload, fetch: bool, create: bool)

  const NO_FAULTS := Faults(false, Uploaded, false, false)

  datatype Event =
    | Reconcile(read: Read, faults: Faults, reached: bool, commit: bool)
    | WriteState(data: Data)
    | DeleteSecret
    | CreateWorkspace(ephemeral: bool)
    | EditWorkspace(ephemeral: bool)
    | DeleteWorkspace

  datatype Outcome = Outcome(status: Status, secret: Option<Secret>, bucket: Option<Data>, revision: nat, err: bool)

  /** An update of an object is refused unless it was read at its current version. */
  predicate Current(w: World, s: Secret) {
    w.secret.Some? && w.secret.value.version == s.version
  }

  /** Restoring creates the secret before parsing it, and records only the serial of the backup. */
  function Restored(w: World, status: Status, faults: Faults): Outcome {
    if faults.fetch then Outcome(status, w.secret, w.bucket, w.revision, true)
    else if w.bucket.None? then Outcome(status, w.secret, w.bucket, w.revision, false)
    else if faults.create || w.secret.Some? then Outcome(status, w.secret, w.bucket, w.revision, true)
    else
      var data := w.bucket.value;
      var created := Some(Secret(data, false, w.revision + 1));
      if data.Unreadable? then Outcome(status, created, w.bucket, w.revision + 1, true)
      else Outcome(status.(backupSerial := Some(data.serial)), created, w.bucket, w.revision + 1, false)
  }

  function BackedUp(w: World, ws: Workspace, data: Data, faults: Faults): Outcome
    requires data.StateFile?
  {
    var owned := Some(Secret(data, true, w.revision + 1));
    var reported := ws.status.(serial := Some(data.serial), outputs := data.outputs);
    if !w.provider || ws.ephemeral || ws.status.backupSerial == Some(data.serial) then
      Outcome(reported, owned, w.bucket, w.revision + 1, false)
    else
      match faults.upload
      case Uploaded =>
        Outcome(reported.(backupSerial := Some(data.serial)), owned, Some(data), w.revision + 1, false)
      case Refused => Outcome(reported, owned, w.bucket, w.revision + 1, true)
      case UploadedThenFailed => Outcome(reported, owned, Some(data), w.revision + 1, true)
  }

  function Managed(w: World, ws: Workspace, read: Read, faults: Faults): Outcome {
    match read
    case ReadError => Outcome(ws.status, w.secret, w.bucket, w.revision, true)
    case NotFound =>
      if w.provider then Restored(w, ws.status, faults)
      else Outcome(ws.status, w.secret, w.bucket, w.revision, false)
    case Got(s) =>
      if faults.update || !Current(w, s) then Outcome(ws.status, w.secret, w.bucket, w.revision, true)
      else if s.data.Unreadable? then
        Outcome(ws.status, Some(Secret(s.data, true, w.revision + 1)), w.bucket, w.revision + 1, true)
      else BackedUp(w, ws, s.data, faults)
  }

  predicate Enabled(w: World, e: Event) {
    match e
    case Reconcile(read, _, _, _) =>
      w.ws.Some? && (read.Got? && Current(w, read.secret) ==> read.secret == w.secret.value)
    case WriteState(_) => true
    case DeleteSecret => true
    case CreateWorkspace(_) => w.ws.None?
    case EditWorkspace(_) => w.ws.Some?
    case DeleteWorkspace => w.ws.Some?
  }

  /** An earlier link of the chain may keep a reconcile from reaching the state; the status is written
      even after an error, unless that write fails too. Deleting a workspace takes the secret it owns. */
  function Apply(w: World, e: Event): World
    requires Enabled(w, e)
  {
    match e
    case Reconcile(read, faults, reached, commit) =>
      if !reached then w
      else
        var o := Managed(w, w.ws.value, read, faults);
        w.(ws := if commit then Some(w.ws.value.(status := o.status)) else w.ws,
           secret := o.secret, bucket := o.bucket, revision := o.revision)
    case WriteState(data) =>
      var owned := w.secret.Some? && w.secret.value.owned;
      w.(secret := Some(Secret(data, owned, w.revision + 1)), revision := w.revision + 1)
    case DeleteSecret => w.(secret := None)
    case CreateWorkspace(ephemeral) => w.(ws := Some(Workspace(ephemeral, Status(None, None, map[]))))
    case EditWorkspace(ephemeral) => w.(ws := Some(w.ws.value.(ephemeral := ephemeral)))
    case DeleteWorkspace =>
      w.(ws := None, secret := if w.secret.Some? && w.secret.value.owned then None else w.secret)
  }

  ghost predicate StepAt(t: seq<World>, events: seq<Event>, i: nat)
    requires i < |events| && |t| == |events| + 1
  {
    Enabled(t[i], events[i]) && t[i + 1] == Apply(t[i], events[i])
  }

  /** From a cluster without workspace or state, with whatever readable backup the bucket holds. */
  ghost predicate IsTrace(t: seq<World>, events: seq<Event>) {
    && |t| == |events| + 1
    && t[0].ws.None? && t[0].secret.None? && BucketReadable(t[0])
    && forall i: nat :: i < |events| ==> StepAt(t, events, i)
  }

  ghost predicate BucketReadable(w: World) {
    w.bucket.Some? ==> w.bucket.value.StateFile?
  }

  // ---- what a recorded backup serial says ---------------------------------

  /** The recorded serial is the serial of the backup. */
  ghost predicate Recorded(w: World) {
    w.ws.Some? && w.ws.value.status.backupSerial.Some? ==>
      && w.bucket.Some? && w.bucket.value.StateFile?
      && w.bucket.value.serial == w.ws.value.status.backupSerial.value
  }

  /** The reconcile reaches the upload: the secret was read at its current version, it parses, backups
      are on and the serials differ. */
  ghost predicate Uploads(w: World, e: Event)
    requires Enabled(w, e)
  {
    && e.Reconcile? && e.reached && e.read.Got? && !e.faults.update && Current(w, e.read.secret)
    && e.read.secret.data.StateFile?
    && w.provider && !w.ws.value.ephemeral
    && w.ws.value.status.backupSerial != Some(e.read.secret.data.serial)
    && e.faults.upload != Refused
  }

  /** Exactly one kind of step makes a recorded serial wrong: the bucket is overwritten, and the new
      serial is not recorded because the provider reports failure or the status write fails. */
  lemma RecordedExact(w: World, e: Event)
    requires Recorded(w) && BucketReadable(w) && Enabled(w, e)
    ensures BucketReadable(Apply(w, e))
    ensures !Recorded(Apply(w, e)) <==>
      && Uploads(w, e) && w.ws.value.status.backupSerial.Some?
      && !(e.commit && e.faults.upload == Uploaded)
  {
  }

  /** And it happens: a second state is uploaded and the status is not written. */
  lemma RecordLost() returns (t: seq<World>, events: seq<Event>)
    ensures IsTrace(t, events) && |t| > 1 && Recorded(t[|t| - 2]) && !Recorded(t[|t| - 1])
  {
    var one, two := StateFile(1, map[], "one"), StateFile(2, map[], "two");
    var w0 := World(true, None, None, None, 0);
    var w1 := Apply(w0, CreateWorkspace(false));
    var w2 := Apply(w1, WriteState(one));
    var first := Reconcile(Got(w2.secret.value), NO_FAULTS, true, true);
    var w3 := Apply(w2, first);
    var w4 := Apply(w3, WriteState(two));
    var second := Reconcile(Got(w4.secret.value), NO_FAULTS, true, false);
    t := [w0, w1, w2, w3, w4, Apply(w4, second)];
    events := [CreateWorkspace(false), WriteState(one), first, WriteState(two), second];
    assert StepAt(t, events, 0) && StepAt(t, events, 1) && StepAt(t, events, 2);
    assert StepAt(t, events, 3) && StepAt(t, events, 4);
  }

  /** Every overwrite of the bucket is recorded. */
  ghost predicate AllRecorded(t: seq<World>, events: seq<Event>)
    requires IsTrace(t, events)
  {
    forall i: nat :: i < |events| ==> StepAt(t, events, i) && Records(t[i], events[i])
  }

  ghost predicate Records(w: World, e: Event) {
    Enabled(w, e) && (Uploads(w, e) ==> e.commit && e.faults.upload == Uploaded)
  }

  lemma {:induction false} TraceRecorded(t: seq<World>, events: seq<Event>, i: nat)
    requires IsTrace(t, events) && i < |t| && AllRecorded(t, events)
    ensures Recorded(t[i]) && BucketReadable(t[i])
    decreases i
  {
    if i == 0 {
    } else {
      TraceRecorded(t, events, i - 1);
      assert StepAt(t, events, i - 1) && Records(t[i - 1], events[i - 1]);
      RecordedExact(t[i - 1], events[i - 1]);
    }
  }

  // ---- no state goes without its backup -----------------------------------

  /** Terraform raises the serial with every state it writes over another, and nobody else removes the
      state of a workspace. */
  ghost predicate Rising(w: World, e: Event) {
    && (e.WriteState? ==>
          && e.data.StateFile?
          && (w.secret.Some? && w.secret.value.data.StateFile? ==> e.data.serial > w.secret.value.data.serial))
    && (e.DeleteSecret? ==> w.ws.None?)
  }

  ghost predicate AllRising(t: seq<World>, events: seq<Event>)
    requires IsTrace(t, events)
  {
    forall i: nat :: i < |events| ==> StepAt(t, events, i) && Rising(t[i], events[i])
  }

  /** Whatever failed before, a recorded serial is at most the state's, and where they are equal the bucket
      holds that very state. */
  ghost predicate Safe(w: World) {
    && BucketReadable(w)
    && (w.secret.Some? ==> w.secret.value.data.StateFile?)
    && (w.ws.Some? && w.ws.value.status.backupSerial.Some? ==>
          && w.secret.Some?
          && w.ws.value.status.backupSerial.value <= w.secret.value.data.serial
          && (w.ws.value.status.backupSerial.value == w.secret.value.data.serial ==>
                w.bucket == Some(w.secret.value.data)))
  }

  lemma SafeStep(w: World, e: Event)
    requires Safe(w) && Enabled(w, e) && Rising(w, e)
    ensures Safe(Apply(w, e))
  {
  }

  lemma {:induction false} TraceSafe(t: seq<World>, events: seq<Event>, i: nat)
    requires IsTrace(t, events) && i < |t| && AllRising(t, events)
    ensures Safe(t[i])
    decreases i
  {
    if i == 0 {
    } else {
      TraceSafe(t, events, i - 1);
      assert StepAt(t, events, i - 1) && Rising(t[i - 1], events[i - 1]);
      SafeStep(t[i - 1], events[i - 1]);
    }
  }

  /** The reconcile got through to the end: it found the state, met no error, and its status was written. */
  ghost predicate Clean(w: World, e: Event) {
    && Enabled(w, e) && e.Reconcile? && e.reached && e.commit && e.read.Got?
    && !Managed(w, w.ws.value, e.read, e.faults).err
  }

  /** Every reconcile that reads the current state and can write what it finds reports its serial and its
      outputs, whether backups are on or off, due or not, and whatever becomes of the upload. */
  lemma StateReported(t: seq<World>, events: seq<Event>, i: nat)
    requires IsTrace(t, events) && i < |events| && events[i].Reconcile? && events[i].reached && events[i].commit
    requires events[i].read.Got? && t[i].secret == Some(events[i].read.secret) && !events[i].faults.update
    requires events[i].read.secret.data.StateFile?
    ensures t[i + 1].ws.Some? && t[i + 1].secret.Some?
    ensures var status, data := t[i + 1].ws.value.status, t[i].secret.value.data;
      && status.serial == Some(data.serial) && status.outputs == data.outputs
      && t[i + 1].secret.value.data == data && t[i + 1].secret.value.owned
  {
    assert StepAt(t, events, i);
  }

  /** A backup is due: they are on, and the state's serial is not the recorded one. */
  predicate Due(w: World, ws: Workspace, data: Data)
    requires data.StateFile?
  {
    w.provider && !ws.ephemeral && ws.status.backupSerial != Some(data.serial)
  }

  /** With a secret read, field by field. */
  lemma FoundExact(w: World, ws: Workspace, s: Secret, faults: Faults)
    ensures var o := Managed(w, ws, Got(s), faults);
      var updated := !faults.update && w.secret.Some? && w.secret.value.version == s.version;
      var due := updated && s.data.StateFile? && Due(w, ws, s.data);
      && o.secret == (if updated then Some(Secret(s.data, true, w.revision + 1)) else w.secret)
      && o.status.serial == (if updated && s.data.StateFile? then Some(s.data.serial) else ws.status.serial)
      && o.status.outputs == (if updated && s.data.StateFile? then s.data.outputs else ws.status.outputs)
      && o.bucket == (if due && faults.upload != Refused then Some(s.data) else w.bucket)
      && o.status.backupSerial
           == (if due && faults.upload == Uploaded then Some(s.data.serial) else ws.status.backupSerial)
      && (o.err <==> !updated || s.data.Unreadable? || (due && faults.upload != Uploaded))
  {
  }

  /** Without one: the backup is brought back if there is a provider, a backup, and no secret in its place. */
  lemma MissingExact(w: World, ws: Workspace, faults: Faults)
    ensures var o := Managed(w, ws, NotFound, faults);
      var fetched := w.provider && !faults.fetch && w.bucket.Some?;
      var made := fetched && !faults.create && w.secret.None?;
      && o.secret == (if made then Some(Secret(w.bucket.value, false, w.revision + 1)) else w.secret)
      && o.bucket == w.bucket && o.status.serial == ws.status.serial && o.status.outputs == ws.status.outputs
      && o.status.backupSerial
           == (if made && w.bucket.value.StateFile? then Some(w.bucket.value.serial) else ws.status.backupSerial)
      && (o.err <==>
            w.provider && (faults.fetch || (fetched && !made) || (made && w.bucket.value.Unreadable?)))
  {
  }

  /** After any history of failed and successful reconciles, a clean one leaves the bucket holding exactly
      the current state, and says so. */
  lemma CleanBacksUp(t: seq<World>, events: seq<Event>, i: nat)
    requires IsTrace(t, events) && i < |events| && AllRising(t, events)
    requires Clean(t[i], events[i]) && t[i].provider && !t[i].ws.value.ephemeral
    ensures var w := t[i + 1];
      && w.secret.Some? && w.secret.value.owned
      && w.bucket == Some(w.secret.value.data)
      && w.ws.value.status.backupSerial == w.ws.value.status.serial == Some(w.secret.value.data.serial)
      && w.ws.value.status.outputs == w.secret.value.data.outputs
  {
    TraceSafe(t, events, i);
    assert StepAt(t, events, i);
  }

  /** Serials are all that is compared: a state written under the serial already recorded is not backed up
      by any number of reconciles, however many of them meet no error. */
  lemma {:induction false} ReusedSerialIgnored(t: seq<World>, events: seq<Event>, i: nat, j: nat)
    requires IsTrace(t, events) && i <= j < |t|
    requires forall k :: i <= k < j ==> events[k].Reconcile? || events[k].EditWorkspace?
    requires t[i].ws.Some? && t[i].secret.Some? && t[i].secret.value.data.StateFile?
    requires t[i].ws.value.status.backupSerial == Some(t[i].secret.value.data.serial)
    ensures t[j].bucket == t[i].bucket
    ensures t[j].secret.Some? && t[j].secret.value.data == t[i].secret.value.data
    ensures t[j].ws.Some? && t[j].ws.value.status.backupSerial == t[i].ws.value.status.backupSerial
    decreases j
  {
    if i == j {
    } else {
      ReusedSerialIgnored(t, events, i, j - 1);
      assert StepAt(t, events, j - 1);
    }
  }

  // ---- a workspace deleted and made again ---------------------------------

  /** The workspace is deleted, made again, and reconciled twice without trouble. */
  function Remade(w: World, ephemeral: bool): World
    requires w.ws.Some?
  {
    Refreshed(Apply(Apply(w, DeleteWorkspace), CreateWorkspace(ephemeral)))
  }

  function Refreshed(w: World): World
    requires w.ws.Some?
  {
    Apply(w, Refresh(w))
  }

  function Refresh(w: World): Event {
    Reconcile(if w.secret.Some? then Got(w.secret.value) else NotFound, NO_FAULTS, true, true)
  }

  /** A backed up state survives: the new workspace has the same state, the next reconcile uploads
      nothing, and all serials agree. Nothing here depends on the new workspace being ephemeral. */
  lemma RemadeRestores(w: World, ephemeral: bool)
    requires w.provider && w.ws.Some? && w.secret.Some? && w.secret.value.owned
    requires w.secret.value.data.StateFile? && w.bucket == Some(w.secret.value.data)
    ensures var w1 := Remade(w, ephemeral); var w2 := Refreshed(w1); var data := w.secret.value.data;
      && Apply(w, DeleteWorkspace).secret == None
      && w1.secret.Some? && w1.secret.value.data == data && !w1.secret.value.owned
      && w1.ws.value.status.backupSerial == Some(data.serial) && w1.ws.value.status.serial == None
      && !Uploads(w1, Refresh(w1))
      && w2.secret.Some? && w2.secret.value.data == data && w2.secret.value.owned
      && w2.bucket == w.bucket
      && w2.ws.value.status == Status(Some(data.serial), Some(data.serial), data.outputs)
  {
  }

  /** What a trace's clean reconcile backed up comes back in the remade workspace. */
  lemma BackupThenRemake(t: seq<World>, events: seq<Event>, i: nat, ephemeral: bool)
    requires IsTrace(t, events) && i < |events| && AllRising(t, events)
    requires Clean(t[i], events[i]) && t[i].provider && !t[i].ws.value.ephemeral
    ensures t[i + 1].ws.Some? && t[i + 1].secret.Some?
    ensures Remade(t[i + 1], ephemeral).secret.Some?
    ensures Remade(t[i + 1], ephemeral).secret.value.data == t[i + 1].secret.value.data == t[i].secret.value.data
  {
    CleanBacksUp(t, events, i);
    TraceSafe(t, events, i);
    assert StepAt(t, events, i);
    RemadeRestores(t[i + 1], ephemeral);
  }

  // ---- in the form of the controller --------------------------------------

  class StatusObject {
    const ephemeral: bool
    var serial: Option<int>
    var backupSerial: Option<int>
    var outputs: map<string, string>

    constructor (ephemeral: bool)
      ensures Value() == Workspace(ephemeral, Status(None, None, map[]))
    {
      this.ephemeral := ephemeral;
      serial, backupSerial, outputs := None, None, map[];
    }

    function Value(): Workspace
      reads this
    {
      Workspace(ephemeral, Status(serial, backupSerial, outputs))
    }
  }

  /** The cluster's secret and the provider's bucket. */
  class Stores {
    var secret: Option<Secret>
    var bucket: Option<Data>
    var revision: nat

    constructor ()
      ensures secret == None && bucket == None && revision == 0
    {
      secret, bucket, revision := None, None, 0;
    }

    function Around(provider: bool, ws: Workspace): World
      reads this
    {
      World(provider, Some(ws), secret, bucket, revision)
    }
  }

  function AsOutcome(ws: StatusObject, stores: Stores, err: bool): Outcome
    reads ws, stores
  {
    Outcome(ws.Value().status, stores.secret, stores.bucket, stores.revision, err)
  }

  method ManageState(provider: bool, ws: StatusObject, stores: Stores, read: Read, faults: Faults) returns (err: bool)
    modifies ws, stores
    ensures AsOutcome(ws, stores, err)
         == Managed(old(stores.Around(provider, ws.Value())), old(ws.Value()), read, faults)
  {
    match read {
      case NotFound =>
        if provider {
          err := Restore(provider, ws, stores, faults);
          return err;
        }
      case ReadError =>
        return true;
      case Got(secret) =>
        if faults.update || stores.secret.None? || stores.secret.value.version != secret.version {
          return true;
        }
        stores.revision := stores.revision + 1;
        stores.secret := Some(Secret(secret.data, true, stores.revision));
        if secret.data.Unreadable? {
          return true;
        }
        ws.serial := Some(secret.data.serial);
        if ws.outputs != secret.data.outputs {
          ws.outputs := secret.data.outputs;
        }
        if provider && !ws.ephemeral {
          if ws.backupSerial.None? || ws.backupSerial.value != secret.data.serial {
            if faults.upload != Refused {
              stores.bucket := Some(secret.data);
            }
            if faults.upload != Uploaded {
              return true;
            }
            ws.backupSerial := Some(secret.data.serial);
          }
        }
    }
    return false;
  }

  method Restore(provider: bool, ws: StatusObject, stores: Stores, faults: Faults) returns (err: bool)
    modifies ws, stores
    ensures AsOutcome(ws, stores, err)
         == Restored(old(stores.Around(provider, ws.Value())), old(ws.Value()).status, faults)
  {
    if faults.fetch {
      return true;
    }
    if stores.bucket.None? {
      return false;
    }
    var data := stores.bucket.value;
    if faults.create || stores.secret.Some? {
      return true;
    }
    stores.revision := stores.revision + 1;
    stores.secret := Some(Secret(data, false, stores.revision));
    if data.Unreadable? {
      return true;
    }
    ws.backupSerial := Some(data.serial);
    return false;
  }
}
