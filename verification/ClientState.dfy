/** The client's state word: its values, the codes the client's operations return, and the checks and the
    compare-and-set (aws_iot_mqtt_set_client_state) through which every operation goes. */
module ClientState {

  datatype ClientState =
    | INVALID | INITIALIZED | CONNECTING | CONNECTED_IDLE | YIELD_IN_PROGRESS | PUBLISH_IN_PROGRESS
    | SUBSCRIBE_IN_PROGRESS | UNSUBSCRIBE_IN_PROGRESS | RESUBSCRIBE_IN_PROGRESS | WAIT_FOR_CB_RETURN
    | DISCONNECTING | DISCONNECTED_ERROR | DISCONNECTED_MANUALLY | PENDING_RECONNECT

  datatype Rc =
    | SUCCESS | FAILURE | NETWORK_DISCONNECTED | NETWORK_ALREADY_CONNECTED | NETWORK_MANUALLY_DISCONNECTED
    | CLIENT_NOT_IDLE | UNEXPECTED_CLIENT_STATE | NETWORK_ATTEMPTING_RECONNECT | NETWORK_RECONNECTED
    | NETWORK_RECONNECT_TIMED_OUT | PHYSICAL_LAYER_DISCONNECTED
    | SSL_READ_ERROR | SSL_WRITE_ERROR | SSL_WRITE_TIMEOUT | REQUEST_TIMEOUT

  /** aws_iot_mqtt_is_client_connected */
  predicate Connected(s: ClientState) {
    s == CONNECTED_IDLE || s == YIELD_IN_PROGRESS || s == PUBLISH_IN_PROGRESS || s == SUBSCRIBE_IN_PROGRESS
    || s == UNSUBSCRIBE_IN_PROGRESS || s == RESUBSCRIBE_IN_PROGRESS || s == WAIT_FOR_CB_RETURN
  }

  /** _aws_iot_mqtt_is_client_state_valid_for_connect */
  predicate ValidForConnect(s: ClientState) {
    s == INITIALIZED || s == DISCONNECTED_ERROR || s == DISCONNECTED_MANUALLY || s == PENDING_RECONNECT
  }

  /** States no operation is waiting to leave: those connect, reconnect and yield end in. */
  predicate Settled(s: ClientState) {
    s == CONNECTED_IDLE || s == RESUBSCRIBE_IN_PROGRESS || s == DISCONNECTED_ERROR
    || s == DISCONNECTED_MANUALLY || s == PENDING_RECONNECT
  }

  type SettledState = s: ClientState | Settled(s) witness CONNECTED_IDLE

  /** aws_iot_mqtt_set_client_state */
  function SetState(current: ClientState, expected: ClientState, next: ClientState): (ClientState, Rc) {
    if current == expected then (next, SUCCESS) else (current, UNEXPECTED_CLIENT_STATE)
  }

  /** The check at the head of aws_iot_mqtt_connect; SUCCESS lets it go on. */
  function ConnectRefusal(s: ClientState): Rc {
    if ValidForConnect(s) then SUCCESS else NETWORK_ALREADY_CONNECTED
  }

  /** aws_iot_mqtt_attempt_reconnect: it neither connects nor resubscribes unless this is SUCCESS. */
  function ReconnectRefusal(s: ClientState): Rc {
    if Connected(s) && s != RESUBSCRIBE_IN_PROGRESS then NETWORK_ALREADY_CONNECTED
    else if Connected(s) || ValidForConnect(s) then SUCCESS
    else NETWORK_ATTEMPTING_RECONNECT
  }

  /** The checks at the head of aws_iot_mqtt_yield. */
  function YieldRefusal(s: ClientState): Rc {
    if s == DISCONNECTED_MANUALLY then NETWORK_MANUALLY_DISCONNECTED
    else if s == PENDING_RECONNECT || s == RESUBSCRIBE_IN_PROGRESS then SUCCESS
    else if !Connected(s) then NETWORK_DISCONNECTED
    else if s != CONNECTED_IDLE then CLIENT_NOT_IDLE
    else SUCCESS
  }
}
