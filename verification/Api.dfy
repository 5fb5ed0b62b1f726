/** The values exchanged between the custom resource, the controller and the Orchard API. */
module Api {
  import opened Wrappers
  import opened Float32

  datatype HostDir = HostDir(name: string, path: string, ro: Option<bool>)
  datatype Script = Script(content: string, env: Option<map<string, string>>)

  /** The spec of the custom resource; None is a nil pointer, slice or map. */
  datatype Params = Params(
    image: string,
    cpu: Option<Int32>,
    memory: Option<Int32>,
    diskSize: Option<Int32>,
    startupScript: Option<Script>,
    username: Option<string>,
    password: Option<string>,
    headless: Option<bool>,
    netBridged: Option<string>,
    netSoftnet: Option<bool>,
    netSoftnetAllow: Option<seq<string>>,
    netSoftnetBlock: Option<seq<string>>,
    hostDirs: Option<seq<HostDir>>,
    labels: Option<map<string, string>>,
    resources: Option<map<string, int>>,
    nested: Option<bool>,
    suspendable: Option<bool>,
    imagePullPolicy: Option<string>,
    restartPolicy: Option<string>)

  /** Parameters that set an image and perhaps a script, and nothing else. */
  function ImageOnly(image: string, script: Option<Script>): Params {
    Params(image, None, None, None, script, None, None, None, None, None, None, None, None, None, None, None, None,
           None, None)
  }

  datatype ApiHostDir = ApiHostDir(name: Option<string>, path: Option<string>, ro: Option<bool>)

  /** The specification part of the API's VM object.  Numbers are float32 values, held as
      reals. */
  datatype Spec = Spec(
    image: Option<string>,
    cpu: Option<real>,
    memory: Option<real>,
    diskSize: Option<real>,
    username: Option<string>,
    password: Option<string>,
    headless: Option<bool>,
    netBridged: Option<string>,
    netSoftnet: Option<bool>,
    netSoftnetAllow: Option<seq<string>>,
    netSoftnetBlock: Option<seq<string>>,
    hostDirs: Option<seq<ApiHostDir>>,
    labels: Option<map<string, string>>,
    resources: Option<map<string, int>>,
    nested: Option<bool>,
    suspendable: Option<bool>,
    imagePullPolicy: Option<string>,
    restartPolicy: Option<string>)

  const LISTED := ["", "running", "creating", "starting", "pending", "stopping", "deleting", "failed", "error"]

  type UnlistedStatus = s: string | s !in LISTED witness "?"

  /** The status text of a VM: empty, one of the texts the controller knows, or another. */
  datatype Status =
    | Blank | StatusRunning
    | StatusCreating | StatusStarting | StatusPending
    | StatusStopping | StatusDeleting
    | StatusFailed | StatusError
    | StatusOther(text: UnlistedStatus)

  /** What GET returns for a VM: its specification and its state. */
  datatype Record = Record(
    spec: Spec,
    status: Option<Status>,
    statusMessage: Option<string>,
    worker: Option<string>,
    generation: Option<real>,
    observedGeneration: Option<real>)
}
