/** Objects of the apiserver that several components read. */
module Objects {

  datatype PodNameAndIp = PodNameAndIp(name: string, ip: string)
}
