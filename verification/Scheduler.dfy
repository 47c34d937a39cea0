/** The dispatcher of the master's messages: which engine operation each message causes, in
    what order, and how it can end the process. */
module Scheduler {
  import opened Decimal
  import opened Engine
  import opened EngineSpec
  import opened BloomFilter
  import opened LogLine

  type Data = map<string, string>

  datatype NodeState = NodeState(role: string, engine: EngineState)

  // The engine has a row of filters that fits its parameters.
  ghost predicate Serving(e: EngineState)
  {
    e.params.interval > 0 && |e.filters| == FiltersNum(e.params) && AllSized(e.filters)
  }

  // What one turn of msgProcWorker ends with.
  datatype Reaction =
    | Continues               // on to the next message
    | Logs(record: Record)    // the record is to be put into the log queue
    | Adjusted(replied: bool) // rebuilt; the process dies when the reply cannot be made
    | Hangs                   // in NodeMessageSender::connect, which never returns
    | Dies                    // of an exception nobody catches, or of a division by zero
    | DiesReading             // of a line of the log that cannot be read

  // operator[] of std::map on a missing key.
  function Lookup(data: Data, key: string): string
  {
    if key in data then data[key] else ""
  }

  predicate HasAdjustFields(data: Data)
  {
    && "max_jwt_life_time" in data && "rotation_interval" in data
    && "bloom_filter_size" in data && "hash_function_num" in data
  }

  function AdjustFields(data: Data): Params
    requires HasAdjustFields(data)
  {
    Params(StringToUInt(data["max_jwt_life_time"]), StringToUInt(data["rotation_interval"]),
           StringToSizeT(data["bloom_filter_size"]), StringToUInt(data["hash_function_num"]))
  }

  function MessageRecord(data: Data): Record
  {
    Record(Lookup(data, "token"), StringToTimestamp(Lookup(data, "exp_time")))
  }

  predicate IsLocal(role: string)
  {
    role == "single_node" || role == "proxy_node"
  }

  function AfterAdjust(outcome: Outcome, data: Data): Reaction
  {
    match outcome
    case Done => Adjusted("uuid" in data)
    case Died => Dies
    case DiedReading => DiesReading
  }

  function Dispatch(h: Hash, s: NodeState, event: string, data: Data, now: int): (NodeState, Reaction)
    requires Serving(s.engine)
  {
    if event == "revoke_jwt" then
      var r := MessageRecord(data);
      if IsLocal(s.role) then
        var filters := Revoke(h, s.engine.params, s.engine.filters, r.token, r.exp, now);
        (s.(engine := s.engine.(filters := filters)), Logs(r))
      else (s, Logs(r))
    else if event == "adjust_bloom_filter" then
      if "node_role" !in data then (s, Dies)
      else
        var role := data["node_role"];
        if IsLocal(role) then
          if !HasAdjustFields(data) then (s.(role := role), Dies)
          else
            var (engine, outcome) := Adjust(h, s.engine, AdjustFields(data), now);
            (NodeState(role, engine), AfterAdjust(outcome, data))
        else if role == "slave_node" then
          (s.(role := role), if "proxy_node_host" in data && "proxy_node_port" in data then Hangs else Dies)
        else (s, Continues)
    else (s, Continues)
  }

  class Scheduler {
    const engine: Engine
    var nodeRole: string

    function View(): NodeState
      reads this, engine, engine.filters
    {
      NodeState(nodeRole, engine.View())
    }

    constructor (engine: Engine)
      ensures this.engine == engine && nodeRole == "single_node"
    {
      this.engine := engine;
      nodeRole := "single_node";
    }

    // One turn of msgProcWorker on a parsed message.
    method ProcessMessage(event: string, data: Data, now: int) returns (reaction: Reaction)
      requires engine.Valid()
      modifies this`nodeRole, engine, engine.filters
      ensures (View(), reaction) == Dispatch(engine.hash, old(View()), event, data, now)
      ensures !reaction.Dies? && !reaction.DiesReading? ==> engine.Valid()
      // A revocation changes neither role nor parameters nor log, and only a local node's
      // row; nothing but an adjust rebuilds, hangs or dies; other messages change nothing.
      ensures event == "revoke_jwt" ==>
                && reaction == Logs(MessageRecord(data)) && nodeRole == old(nodeRole)
                && engine.ParamsView() == old(engine.ParamsView()) && engine.logDir == old(engine.logDir)
                && (!IsLocal(nodeRole) ==> View() == old(View()))
      ensures event == "revoke_jwt" && (nodeRole == "single_node" || nodeRole == "proxy_node") ==>
                Views(engine.filters) == Revoke(engine.hash, engine.ParamsView(), old(Views(engine.filters)),
                                                MessageRecord(data).token, MessageRecord(data).exp, now)
      // An adjust changes the role to the one it names, if there is such a role, before
      // anything else, and also when the process then dies.
      ensures event == "adjust_bloom_filter" ==>
                nodeRole == if "node_role" in data && data["node_role"] in ["single_node", "proxy_node", "slave_node"]
                            then data["node_role"] else old(nodeRole)
      ensures !reaction.Logs? && !reaction.Continues? ==> event == "adjust_bloom_filter"
      ensures reaction.Hangs? <==>
                && event == "adjust_bloom_filter" && Lookup(data, "node_role") == "slave_node"
                && "proxy_node_host" in data && "proxy_node_port" in data
      ensures event != "revoke_jwt" && event != "adjust_bloom_filter" ==>
                reaction == Continues && View() == old(View())
    {
      hide Revoke, Adjust, AllSized, AreFilters, Views, AdjustFields, HasAdjustFields;
      assert Serving(View().engine);
      if event == "revoke_jwt" {
        var token := Lookup(data, "token");
        var expTime := Lookup(data, "exp_time");
        if nodeRole == "single_node" || nodeRole == "proxy_node" {
          engine.RevokeJwt(token, StringToTimestamp(expTime), now);
        }
        return Logs(Record(token, StringToTimestamp(expTime)));
      }
      if event == "adjust_bloom_filter" {
        if "node_role" !in data { return Dies; }
        var node_role := data["node_role"];
        if node_role == "single_node" || node_role == "proxy_node" {
          nodeRole := node_role;
          if !HasAdjustFields(data) { return Dies; }
          var p := AdjustFields(data);
          var outcome := engine.AdjustFiltersParam(p.maxLife, p.interval, p.size, p.hashNum, now);
          return AfterAdjust(outcome, data);
        }
        if node_role == "slave_node" {
          nodeRole := node_role;
          return if "proxy_node_host" in data && "proxy_node_port" in data then Hangs else Dies;
        }
      }
      return Continues;
    }
  }
}
