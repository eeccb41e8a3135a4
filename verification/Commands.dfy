// pkg/commands/commands.go: the supported commands and which of them are queued.
module Commands {
  datatype Command = Command(path: string, queueable: bool)

  const ALL: seq<Command> := [
    Command("apply", true), Command("console", false), Command("destroy", true),
    Command("force-unlock", true), Command("get", false), Command("graph", false),
    Command("import", true), Command("init", true), Command("output", false),
    Command("plan", false), Command("refresh", true), Command("providers", false),
    Command("providers lock", false), Command("show", false), Command("state", false),
    Command("state list", false), Command("state mv", true), Command("state pull", false),
    Command("state push", true), Command("state replace-provider", true),
    Command("state rm", true), Command("state show", false), Command("sh", true),
    Command("taint", true), Command("untaint", true), Command("validate", false)
  ]

  predicate IsQueueable(cmd: string) {
    Command(cmd, true) in ALL
  }

  /** The commands that change state, or may, and so have to wait their turn. */
  lemma QueueableExact(cmd: string)
    ensures IsQueueable(cmd) <==>
      cmd in {"apply", "destroy", "force-unlock", "import", "init", "refresh", "sh", "state mv", "state push",
              "state replace-provider", "state rm", "taint", "untaint"}
  {
  }

  method ScanQueueable(cmd: string) returns (queueable: bool)
    ensures queueable == IsQueueable(cmd)
  {
    for i := 0 to |ALL|
      invariant Command(cmd, true) !in ALL[..i]
    {
      if ALL[i].path == cmd && ALL[i].queueable {
        return true;
      }
      assert ALL[..i + 1] == ALL[..i] + [ALL[i]];
    }
    assert ALL[..|ALL|] == ALL;
    return false;
  }
}
