/**
 * The two reconcilers share one PodReconcilerConfig object, their only point
 * of contact: a value the ConfigMap reconciler stores is the value the pod
 * reconciler reads on its next run.
 */
module Wiring {
  import opened Wrappers
  import opened Durations
  import opened Kube
  import opened Config
  import PodController
  import ConfigMapController

  /**
   * The designated ConfigMap lowers maxPodAge from one hour to 45 minutes; a
   * Failed pod aged 50 minutes, which would have waited under the default,
   * is deleted on its next reconciliation.
   */
  method ConfigUpdateReachesPodReconciler(cmKey: NamespacedName, podKey: NamespacedName, now: Time)
    requires podKey.namespace != PodController.ExcludedNamespace
    requires now != 50 * Minute
  {
    var config := new PodReconcilerConfig();
    var configMaps := new Client<ConfigMap>(map[cmKey := ConfigMap(cmKey, map[ConfigMapController.MaxPodAgeKey := "45m"])]);
    var parse := (s: string) => if s == "45m" then Some(45 * Minute) else None;
    var configMapReconciler := new ConfigMapController.ConfigMapReconciler(configMaps, config, cmKey.String(), parse);
    var pods := new Client<Pod>(map[podKey := Pod(podKey, PodFailed, now - 50 * Minute)]);
    var podReconciler := new PodController.PodReconciler(pods, config);

    var _, configErr := configMapReconciler.Reconcile(cmKey);
    // the fetch may fail transiently; when it does not, the new value is in place
    assert configErr == None ==> config.maxPodAge == 45 * Minute;

    var res, err := podReconciler.Reconcile(podKey, now);
    assert configErr == None && err == None ==> podKey !in pods.objects && res == Empty;
    assert configErr != None && err == None ==> podKey in pods.objects && res == Result(false, Minute);
  }
}
