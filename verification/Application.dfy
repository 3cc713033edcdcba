// The client's frame loop: poll, filter, dispatch to the scene, change scene.
module Application {
  import opened Prelude
  import opened Protocol
  import opened ClientSpec
  import Accounts
  import Filter
  import Framing
  import Network

  class Application {
    const m_net: Network.NetworkClient
    var lastSeqByType: Filter.LastSeq   // m_ctx
    var clientId: nat
    var uuid: string
    var resources: Accounts.Resources   // m_player
    var scene: Scene                    // m_scenes
    var alive: bool                     // no exception has left Update

    ghost function View(): ClientState
      reads this, m_net
    {
      ClientState(m_net.Input(), m_net.m_recvQueue, lastSeqByType, clientId, uuid, scene, resources, alive)
    }

    constructor (net: Network.NetworkClient)
      requires net.Input() == Framing.EMPTY && net.m_recvQueue == []
      ensures View() == Launched() && m_net == net
    {
      m_net := net;
      lastSeqByType, clientId, uuid := map[], 0, "";
      resources, scene, alive := Accounts.NO_RESOURCES, Login, true;
    }

    // LoginScene::handleMessage. ok is false when an exception leaves it.
    method LoginHandleMessage(msg: Message) returns (handled: bool)
      modifies this`uuid, this`alive
      ensures View() == LoginHandle(old(View()), msg)
    {
      if msg.kind == LOGIN_RESULT {
        var u := StringAt(msg.payload, "uuid");
        if u.None? {
          alive := false;
          return false;
        }
        uuid := u.value;
        return true;
      }
      handled := false;
    }

    // GameScene::handleMessage.
    method GameHandleMessage(msg: Message) returns (handled: bool)
      modifies this`resources, this`alive
      ensures View() == GameHandle(old(View()), msg)
    {
      if msg.kind == RESOURCE_UPDATE {
        var u := StringAt(msg.payload, "uuid");
        if u.None? {
          alive := false;
          return false;
        }
        if u.value == uuid {
          var wood := UnsignedAt(msg.payload, "wood", U64);
          var food := UnsignedAt(msg.payload, "food", U64);
          var iron := UnsignedAt(msg.payload, "iron", U64);
          if wood.None? || food.None? || iron.None? {
            alive := false;
            return false;
          }
          resources := Accounts.Resources(wood.value, food.value, iron.value);
        }
        return true;
      }
      handled := false;
    }

    method ChangeScene(id: Scene)
      modifies this`scene
      ensures scene == id
    {
      scene := id;
    }

    // What the loop of Update does with one polled message.
    method Handle(msg: Message)
      modifies this
      ensures View() == (var c := old(View());
                         var noted := c.(lastSeq := Filter.Note(c.lastSeq, msg));
                         if Filter.Accepts(c.lastSeq, msg) then Dispatch(noted, msg) else noted)
    {
      if msg.kind !in lastSeqByType {
        lastSeqByType := lastSeqByType[msg.kind := 0];
      }
      var lastSeq := lastSeqByType[msg.kind];
      assert lastSeq == Filter.LastOf(old(lastSeqByType), msg.kind);
      if msg.sequence <= lastSeq {
        assert lastSeqByType == Filter.Note(old(lastSeqByType), msg);
        return;
      }
      if msg.sequence != (lastSeq + 1) % U32 {
        assert lastSeqByType == Filter.Note(old(lastSeqByType), msg);
        return;
      }
      lastSeqByType := lastSeqByType[msg.kind := msg.sequence];
      assert lastSeqByType == Filter.Note(old(lastSeqByType), msg);
      if msg.kind == ASSIGN_CLIENT_ID {
        var id := UnsignedAt(msg.payload, "clientId", U8);
        if id.None? {
          alive := false;
          return;
        }
        clientId := id.value;
        return;
      }
      if scene == Login {
        var _ := LoginHandleMessage(msg);
      } else {
        var _ := GameHandleMessage(msg);
      }
    }

    // One frame. arrivals[i]: what the receive thread has queued when the queue
    // is looked at for the i-th time.
    method Update(arrivals: seq<seq<Message>>)
      requires alive
      modifies this, m_net
      ensures View() == ClientSpec.Update(old(View()), arrivals)
      ensures alive ==> m_net.m_recvQueue == []
      ensures alive ==> (scene == Game <==> uuid != "" || old(scene) == Game)
    {
      hide Dispatch, Filter.Note, Filter.Accepts, Poll;
      var i := 0;
      while alive
        invariant 0 <= i <= |arrivals|
        invariant DrainWith(old(View()), arrivals) == DrainWith(View(), arrivals[i..])
        invariant scene == old(scene)
        decreases |arrivals| - i, |m_net.m_recvQueue| + (if alive then 1 else 0)
      {
        ghost var before := View();
        if i < |arrivals| {
          m_net.Push(arrivals[i]);
          assert arrivals[i..][0] == arrivals[i] && arrivals[i..][1..] == arrivals[i + 1..];
          assert View() == Queued(before, arrivals[i]);
          i := i + 1;
        }
        ghost var got := View();
        var msg := m_net.PollMessage();
        if msg.None? {
          assert View() == got;
          break;
        }
        Handle(msg.value);
        assert View() == Poll(got) by { PollHandles(got, msg.value); }
        PollKeeps(got);
      }
      if !alive {
        return;
      }
      if uuid != "" {
        ChangeScene(Game);
      }
    }
  }

  // A round is taking the first message off the queue and handling it.
  lemma PollHandles(c: ClientState, m: Message)
    requires c.queue != [] && m == c.queue[0]
    ensures Poll(c) == var noted := c.(queue := c.queue[1..], lastSeq := Filter.Note(c.lastSeq, m));
                       if Filter.Accepts(c.lastSeq, m) then Dispatch(noted, m) else noted
  {
  }
}
