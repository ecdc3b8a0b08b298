// What the node agent's parts hand to each other.
module Entities {
  import opened Wrappers
  import opened Decoder

  datatype Source = Source(pod: string, namespace: string, container: string)

  // The settings and the pure helpers the agent is built from.
  datatype Config = Config(
    rules: Rules,
    level: string -> string,                   // GuessLevel
    parseFileName: string -> Option<Source>,   // ParseFileName
    selfContainer: string,
    namespace: string,
    batchSize: nat)

  // One log message on the wire.
  datatype Log = Log(level: string, message: string, service: string, timestamp: string)

  // One complete message, and where it ended in its file.
  datatype Entry = Entry(log: Log, file: string, inode: nat, offset: nat)

  // A checkpoint: everything before offset, in the file that had this inode, needs no second reading.
  datatype Position = Position(inode: nat, offset: nat)

  predicate Wanted(cfg: Config, file: string) {
    match cfg.parseFileName(file)
    case None => false
    case Some(src) =>
      src.container != cfg.selfContainer && (cfg.namespace == "" || src.namespace == cfg.namespace)
  }

  function Service(cfg: Config, file: string): string {
    match cfg.parseFileName(file)
    case None => ""
    case Some(src) => src.container
  }

  function ToEntry(cfg: Config, file: string, inode: nat, m: Message): Entry {
    Entry(Log(cfg.level(m.text), m.text, Service(cfg, file), m.time), file, inode, m.end)
  }

  function ToEntries(cfg: Config, file: string, inode: nat, out: seq<Message>): (es: seq<Entry>)
    ensures |es| == |out|
    ensures forall i :: 0 <= i < |out| ==> es[i] == ToEntry(cfg, file, inode, out[i])
  {
    seq(|out|, i requires 0 <= i < |out| => ToEntry(cfg, file, inode, out[i]))
  }

  lemma EntriesJoin(cfg: Config, file: string, inode: nat, a: seq<Message>, b: seq<Message>)
    ensures ToEntries(cfg, file, inode, a + b) == ToEntries(cfg, file, inode, a) + ToEntries(cfg, file, inode, b)
  {
    hide ToEntry;
  }

  // e is message m of that file on its way: its text and time, the level guessed from the text, the
  // container the file name tells, and where the message ended.
  ghost predicate Ships(cfg: Config, file: string, inode: nat, m: Message, e: Entry) {
    && e.log.message == m.text && e.log.timestamp == m.time && e.log.level == cfg.level(m.text)
    && (cfg.parseFileName(file).Some? ==> e.log.service == cfg.parseFileName(file).value.container)
    && e.file == file && e.inode == inode && e.offset == m.end
  }

  ghost predicate ShipsAll(cfg: Config, file: string, inode: nat, out: seq<Message>, es: seq<Entry>) {
    |es| == |out| && forall i :: 0 <= i < |out| ==> Ships(cfg, file, inode, out[i], es[i])
  }

  lemma EntriesShip(cfg: Config, file: string, inode: nat, out: seq<Message>)
    ensures ShipsAll(cfg, file, inode, out, ToEntries(cfg, file, inode, out))
  {
  }

  // The files the agent ships: those of a container other than its own, in its namespace if it has one.
  ghost predicate IsFollowed(cfg: Config, file: string) {
    exists src :: cfg.parseFileName(file) == Some(src) && src.container != cfg.selfContainer &&
                  (cfg.namespace == "" || src.namespace == cfg.namespace)
  }

  lemma WantedIsFollowed(cfg: Config, file: string)
    ensures Wanted(cfg, file) <==> IsFollowed(cfg, file)
  {
    if Wanted(cfg, file) {
      assert cfg.parseFileName(file) == Some(cfg.parseFileName(file).value);
    }
  }

  // Every file not in keep is forgotten.
  function Restrict<V>(m: map<string, V>, keep: set<string>): map<string, V> {
    map file | file in m && file in keep :: m[file]
  }
}
